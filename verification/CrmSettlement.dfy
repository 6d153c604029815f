/** How discards, retry budgets and whole retry sequences of the CRM protocol are settled. */
module CrmSettlement {
  import opened Common
  import opened Failures
  import opened CrmRecords
  import opened CrmTransactions
  import opened CrmInvariants
  import opened CrmPreservation
  import opened CrmWorld
  import opened CrmWorldPreservation
  import opened CrmTheorems

  // ---------- discards ----------

  /** In every reachable world a lead with any CRM success has no pending or effective discard. */
  lemma SuccessEndsDiscards(cfg: Config, w0: World, steps: seq<Step>, i: SyncId)
    requires Init(w0) && cfg.retryLimit >= 1
    requires i < |Run(cfg, w0, steps).db.syncs| && Run(cfg, w0, steps).db.syncs[i].status == Succeeded
    ensures !LiveDiscard(Run(cfg, w0, steps).db, Run(cfg, w0, steps).db.syncs[i].lead)
  {
    ReachableIsOk(cfg, w0, steps);
  }

  /** The finish of a current worker of this lead that reports a success, or a confirmed create failure. */
  predicate ReportsSuccess(w: World, step: Step, lead: LeadId) {
    && step.FinishStep? && Enabled(w, step) && IsCurrentCall(w, step.call)
    && w.db.syncs[w.calls[step.call].claim.sync].lead == lead
    && w.calls[step.call].phase.Replied?
  }

  predicate ConfirmsCreateFailure(w: World, step: Step, lead: LeadId) {
    && step.FinishStep? && Enabled(w, step) && IsCurrentCall(w, step.call)
    && var s := w.db.syncs[w.calls[step.call].claim.sync];
    && s.lead == lead && s.op == Create
    && w.calls[step.call].phase.Raised? && Classify(w.calls[step.call].phase.error) == Permanent
  }

  lemma TableStepKeepsPendingDiscard(cfg: Config, w: World, step: Step, lead: LeadId)
    requires Enabled(w, step) && IsTableStep(step)
    requires lead in w.db.discards && w.db.discards[lead] == DiscardPending
    ensures lead in Apply(cfg, w, step).db.discards && Apply(cfg, w, step).db.discards[lead] == DiscardPending
  {
    match step
    case FreezeCreateStep(_, req) =>
    case NoCrmUserStep(read) =>
    case FreezeUpdateStep(req) =>
    case StopStep(ids) => StopKeepsDiscardTable(w.db, ids);
    case DiscardStep(other) =>
    case LifecycleStep(_, _) =>
  }

  lemma {:induction false} StopKeepsDiscardTable(db: Db, ids: seq<SyncId>)
    requires forall k :: 0 <= k < |ids| ==> ids[k] < |db.syncs|
    ensures StopDuplicates(db, ids).discards == db.discards
  {
    if ids != [] {
      StopKeepsDiscardTable(db, ids[..|ids| - 1]);
    }
  }

  lemma SuccessVoidsDiscard(db: Db, c: Claim, r: CrmResult, lead: LeadId)
    requires c.sync < |db.syncs| && db.syncs[c.sync].lead in db.lifecycles
    requires lead in db.discards && db.discards[lead] == DiscardPending
    ensures var after := FinishSuccess(db, c, r).db;
            && lead in after.discards
            && after.discards[lead] ==
                 (if ClaimIsCurrent(db.syncs[c.sync], c) && db.syncs[c.sync].lead == lead
                  then DiscardNotEffective else DiscardPending)
  {
  }

  lemma FailureEffectsDiscard(cfg: Config, db: Db, c: Claim, e: TaskError, now: int, lead: LeadId)
    requires c.sync < |db.syncs| && db.syncs[c.sync].lead in db.lifecycles
    requires lead in db.discards && db.discards[lead] == DiscardPending
    ensures var after := Settle(cfg, db, c, Raised(e), now); var s := db.syncs[c.sync];
            && lead in after.discards
            && (if ClaimIsCurrent(s, c) && s.lead == lead && s.op == Create && Classify(e) == Permanent
                then after.discards[lead] == DiscardEffective && lead in after.lifecycles
                     && after.lifecycles[lead] == Discarded
                else after.discards[lead] == DiscardPending)
  {
    DispatchFollowsCategory(e);
  }

  lemma FinishSettlesPendingDiscard(cfg: Config, w: World, k: nat, now: int, lead: LeadId)
    requires Calls(w) && Records(w.db) && Enabled(w, FinishStep(k, now))
    requires lead in w.db.discards && w.db.discards[lead] == DiscardPending
    ensures var step := FinishStep(k, now); var db := Apply(cfg, w, step).db;
            && lead in db.discards
            && (ReportsSuccess(w, step, lead) ==> db.discards[lead] == DiscardNotEffective)
            && (ConfirmsCreateFailure(w, step, lead) ==>
                  db.discards[lead] == DiscardEffective && lead in db.lifecycles && db.lifecycles[lead] == Discarded)
            && (!ReportsSuccess(w, step, lead) && !ConfirmsCreateFailure(w, step, lead) ==>
                  db.discards[lead] == DiscardPending)
  {
    var c, phase := w.calls[k].claim, w.calls[k].phase;
    assert CallOk(w.db, w.ledger, w.calls[k]);
    assert w.db.syncs[c.sync].lead in w.db.lifecycles;
    if phase.Replied? {
      SuccessVoidsDiscard(w.db, c, phase.result, lead);
    } else {
      FailureEffectsDiscard(cfg, w.db, c, phase.error, now, lead);
    }
  }

  /**
    A waiting discard leaves that state exactly when a current worker of its lead reports a success, which makes
    it void, or a confirmed create failure, which makes it effective and discards the lead. Retries, unknown
    outcomes, stale workers and every other step keep it waiting.
  */
  lemma DiscardWaitsForTheFact(cfg: Config, w: World, step: Step, lead: LeadId)
    requires WorldOk(cfg, w)
    requires lead in w.db.discards && w.db.discards[lead] == DiscardPending
    ensures var db := Apply(cfg, w, step).db;
            && lead in db.discards
            && (ReportsSuccess(w, step, lead) <==> db.discards[lead] == DiscardNotEffective)
            && (ConfirmsCreateFailure(w, step, lead) <==> db.discards[lead] == DiscardEffective)
            && (db.discards[lead] == DiscardEffective ==> lead in db.lifecycles && db.lifecycles[lead] == Discarded)
  {
    if Enabled(w, step) && step.FinishStep? {
      assert step == FinishStep(step.call, step.now);
      FinishSettlesPendingDiscard(cfg, w, step.call, step.now, lead);
    } else {
      OtherStepsKeepPendingDiscard(cfg, w, step, lead);
    }
  }

  lemma OtherStepsKeepPendingDiscard(cfg: Config, w: World, step: Step, lead: LeadId)
    requires !(Enabled(w, step) && step.FinishStep?)
    requires lead in w.db.discards && w.db.discards[lead] == DiscardPending
    ensures Apply(cfg, w, step).db.discards == w.db.discards ||
            (lead in Apply(cfg, w, step).db.discards && Apply(cfg, w, step).db.discards[lead] == DiscardPending)
    ensures !ReportsSuccess(w, step, lead) && !ConfirmsCreateFailure(w, step, lead)
  {
    if Enabled(w, step) && IsTableStep(step) {
      TableStepKeepsPendingDiscard(cfg, w, step, lead);
    }
  }

  /** A create whose outcome CRM still owes. */
  predicate IsFlight(s: Sync, lead: LeadId) {
    IsCreateOf(s, lead) && IsInFlightCreate(s)
  }

  /** Every pending discard waits for a create in flight. */
  ghost predicate DiscardsHaveFlights(db: Db) {
    forall lead :: lead in db.discards && db.discards[lead] == DiscardPending ==> HasFlight(db.syncs, lead)
  }

  ghost predicate HasFlight(syncs: seq<Sync>, lead: LeadId) {
    exists i :: 0 <= i < |syncs| && IsFlight(syncs[i], lead)
  }

  lemma TableStepKeepsFlight(cfg: Config, w: World, step: Step, i: SyncId, lead: LeadId)
    requires Enabled(w, step) && IsTableStep(step) && i < |w.db.syncs| && IsFlight(w.db.syncs[i], lead)
    ensures i < |Apply(cfg, w, step).db.syncs| && Apply(cfg, w, step).db.syncs[i] == w.db.syncs[i]
  {
    match step
    case FreezeCreateStep(_, req) => FreezeCreateKeepsFlight(w.db, req, i, lead);
    case NoCrmUserStep(read) =>
    case FreezeUpdateStep(req) =>
    case StopStep(ids) => StopKeepsFlight(w.db, ids, i, lead);
    case DiscardStep(other) =>
    case LifecycleStep(_, _) =>
  }

  lemma FreezeCreateKeepsFlight(db: Db, req: CreateRequest, i: SyncId, lead: LeadId)
    requires i < |db.syncs| && IsFlight(db.syncs[i], lead)
    ensures i < |FreezeCreate(db, req).db.syncs| && FreezeCreate(db, req).db.syncs[i] == db.syncs[i]
  {
  }

  lemma {:induction false} StopKeepsFlight(db: Db, ids: seq<SyncId>, i: SyncId, lead: LeadId)
    requires forall k :: 0 <= k < |ids| ==> ids[k] < |db.syncs|
    requires i < |db.syncs| && IsFlight(db.syncs[i], lead)
    ensures StopDuplicates(db, ids).syncs[i] == db.syncs[i]
  {
    if ids != [] {
      StopKeepsFlight(db, ids[..|ids| - 1], i, lead);
    }
  }

  /** What a finish makes of a create in flight: it stays so, succeeds, or fails for certain. */
  lemma SettleMovesFlight(cfg: Config, db: Db, c: Claim, phase: Phase, now: int, i: SyncId, lead: LeadId)
    requires (phase.Replied? || phase.Raised?) && i < |db.syncs| && IsFlight(db.syncs[i], lead)
    ensures var after := Settle(cfg, db, c, phase, now).syncs;
            && i < |after| && IsCreateOf(after[i], lead)
            && (|| IsInFlightCreate(after[i]) || after[i].status == Succeeded
                || (&& c.sync == i && ClaimIsCurrent(db.syncs[i], c)
                    && phase.Raised? && Classify(phase.error) == Permanent))
  {
    if phase.Raised? {
      ErrorMovesFlight(cfg, db, c, phase.error, now, i, lead);
    }
  }

  lemma ErrorMovesFlight(cfg: Config, db: Db, c: Claim, e: TaskError, now: int, i: SyncId, lead: LeadId)
    requires i < |db.syncs| && IsFlight(db.syncs[i], lead)
    ensures var after := Settle(cfg, db, c, Raised(e), now).syncs;
            && i < |after| && IsCreateOf(after[i], lead)
            && (IsInFlightCreate(after[i]) ||
                (c.sync == i && ClaimIsCurrent(db.syncs[i], c) && Classify(e) == Permanent))
  {
    DispatchFollowsCategory(e);
  }

  lemma ClaimKeepsFlight(cfg: Config, db: Db, id: SyncId, now: int, notify: bool, i: SyncId, lead: LeadId)
    requires i < |db.syncs| && IsFlight(db.syncs[i], lead)
    ensures var after := ClaimRecord(cfg, db, id, now, notify).db.syncs; i < |after| && IsFlight(after[i], lead)
  {
  }

  /** A create in flight stays in flight until it succeeds or its failure is confirmed. */
  lemma StepMovesFlight(cfg: Config, w: World, step: Step, i: SyncId, lead: LeadId)
    requires i < |w.db.syncs| && IsFlight(w.db.syncs[i], lead)
    ensures var after := Apply(cfg, w, step).db.syncs;
            && i < |after| && IsCreateOf(after[i], lead)
            && (IsInFlightCreate(after[i]) || after[i].status == Succeeded || ConfirmsCreateFailure(w, step, lead))
  {
    if Enabled(w, step) {
      if IsTableStep(step) {
        TableStepKeepsFlight(cfg, w, step, i, lead);
      } else if step.ClaimStep? {
        ClaimKeepsFlight(cfg, w.db, step.id, step.now, step.notify, i, lead);
      } else if step.FinishStep? {
        var k := step.call;
        SettleMovesFlight(cfg, w.db, w.calls[k].claim, w.calls[k].phase, step.now, i, lead);
      }
    }
  }

  lemma NewDiscardHasFlight(db: Db, lead: LeadId)
    requires lead !in db.discards && lead in RequestDiscard(db, lead).0.discards
    requires RequestDiscard(db, lead).0.discards[lead] == DiscardPending
    ensures HasFlight(db.syncs, lead) && RequestDiscard(db, lead).0.syncs == db.syncs
  {
    assert IsFlight(db.syncs[LatestCreate(db.syncs, lead).value], lead);
  }

  /** A discard that is pending after a step was pending before, or was just requested. */
  lemma PendingComesFrom(cfg: Config, w: World, step: Step, lead: LeadId)
    requires lead in Apply(cfg, w, step).db.discards
    requires Apply(cfg, w, step).db.discards[lead] == DiscardPending
    ensures || (lead in w.db.discards && w.db.discards[lead] == DiscardPending)
            || (lead !in w.db.discards && step == DiscardStep(lead))
  {
    if Enabled(w, step) {
      match step
      case FreezeCreateStep(_, req) => FreezeKeepsDiscards(w.db, req);
      case FreezeUpdateStep(req) => FreezeUpdateKeepsDiscards(w.db, req);
      case ClaimStep(id, now, notify) => ClaimKeepsDiscards(cfg, w.db, id, now, notify);
      case StopStep(ids) => StopKeepsDiscardTable(w.db, ids);
      case DiscardStep(other) => DiscardPendsOne(w.db, other, lead);
      case FinishStep(k, now) => SettleNeverPends(cfg, w.db, w.calls[k].claim, w.calls[k].phase, now, lead);
      case _ =>
    }
  }

  lemma FreezeKeepsDiscards(db: Db, req: CreateRequest)
    ensures FreezeCreate(db, req).db.discards == db.discards
  {
  }

  lemma FreezeUpdateKeepsDiscards(db: Db, req: UpdateRequest)
    requires req.base < |db.syncs|
    ensures FreezeUpdate(db, req).db.discards == db.discards
  {
  }

  lemma ClaimKeepsDiscards(cfg: Config, db: Db, id: SyncId, now: int, notify: bool)
    ensures ClaimRecord(cfg, db, id, now, notify).db.discards == db.discards
  {
  }

  lemma DiscardPendsOne(db: Db, other: LeadId, lead: LeadId)
    ensures lead != other || lead in db.discards ==>
              (lead in RequestDiscard(db, other).0.discards <==> lead in db.discards)
    ensures (lead != other || lead in db.discards) && lead in db.discards ==>
              RequestDiscard(db, other).0.discards[lead] == db.discards[lead]
  {
  }

  lemma SettleNeverPends(cfg: Config, db: Db, c: Claim, phase: Phase, now: int, lead: LeadId)
    requires phase.Replied? || phase.Raised?
    ensures var after := Settle(cfg, db, c, phase, now).discards;
            lead in after && after[lead] == DiscardPending ==> lead in db.discards && db.discards[lead] == DiscardPending
  {
  }

  lemma StepKeepsDiscardFlights(cfg: Config, w: World, step: Step)
    requires WorldOk(cfg, w) && cfg.retryLimit >= 1 && DiscardsHaveFlights(w.db)
    ensures DiscardsHaveFlights(Apply(cfg, w, step).db)
  {
    var after := Apply(cfg, w, step).db;
    StepKeepsWorld(cfg, w, step);
    forall lead | lead in after.discards && after.discards[lead] == DiscardPending
      ensures HasFlight(after.syncs, lead)
    {
      PendingComesFrom(cfg, w, step, lead);
      if lead in w.db.discards {
        var i :| 0 <= i < |w.db.syncs| && IsFlight(w.db.syncs[i], lead);
        StepMovesFlight(cfg, w, step, i, lead);
        DiscardWaitsForTheFact(cfg, w, step, lead);
        assert after.syncs[i].status != Succeeded;
        assert IsFlight(after.syncs[i], lead);
      } else {
        NewDiscardHasFlight(w.db, lead);
      }
    }
  }

  lemma {:induction false} RunKeepsDiscardFlights(cfg: Config, w: World, steps: seq<Step>)
    requires WorldOk(cfg, w) && cfg.retryLimit >= 1 && DiscardsHaveFlights(w.db)
    ensures DiscardsHaveFlights(Run(cfg, w, steps).db)
  {
    if steps != [] {
      RunKeepsDiscardFlights(cfg, w, steps[..|steps| - 1]);
      RunKeepsWorld(cfg, w, steps[..|steps| - 1]);
      StepKeepsDiscardFlights(cfg, Run(cfg, w, steps[..|steps| - 1]), steps[|steps| - 1]);
    }
  }

  ghost predicate NoPendingDiscard(db: Db) {
    forall lead :: lead in db.discards ==> db.discards[lead] != DiscardPending
  }

  /**
    In every run every pending discard waits for a create in flight, if and only if the initial tables hold no
    pending discard. Their creates all wait for a duplicate decision or are abandoned, so none of them is in flight.
  */
  lemma DiscardsWaitForFlightsIff(cfg: Config, w0: World)
    requires Init(w0) && cfg.retryLimit >= 1
    ensures (forall steps :: DiscardsHaveFlights(Run(cfg, w0, steps).db)) <==> NoPendingDiscard(w0.db)
  {
    InitIsOk(cfg, w0);
    if NoPendingDiscard(w0.db) {
      forall steps
        ensures DiscardsHaveFlights(Run(cfg, w0, steps).db)
      {
        RunKeepsDiscardFlights(cfg, w0, steps);
      }
    } else {
      assert Run(cfg, w0, []) == w0;
    }
  }

  /** Whatever the initial tables, a pending discard has a create that is still open or was abandoned. */
  lemma PendingDiscardHasItsCreate(cfg: Config, w0: World, steps: seq<Step>, lead: LeadId) returns (i: SyncId)
    requires Init(w0) && cfg.retryLimit >= 1
    requires var db := Run(cfg, w0, steps).db; lead in db.discards && db.discards[lead] == DiscardPending
    ensures i < |Run(cfg, w0, steps).db.syncs| && KeepsWaiting(Run(cfg, w0, steps).db.syncs[i], lead)
  {
    var db := Run(cfg, w0, steps).db;
    ReachableIsOk(cfg, w0, steps);
    i :| 0 <= i < |db.syncs| && KeepsWaiting(db.syncs[i], lead);
  }

  /** One stopped row leaves the discard of its lead as it was. */
  lemma StoppedCreateLeavesDiscardWaiting(db: Db, id: SyncId)
    requires id < |db.syncs| && IsStoppable(db.syncs[id])
    requires LatestCreate(db.syncs, db.syncs[id].lead) == Some(id)
    requires db.syncs[id].lead in db.discards && db.discards[db.syncs[id].lead] == DiscardPending
    ensures var after := StopOne(db, id);
            && after.discards[db.syncs[id].lead] == DiscardPending
            && IsFinal(after.syncs[id])
            && LatestCreate(after.syncs, db.syncs[id].lead) == Some(id)
  {
    var after := StopOne(db, id);
    LatestIgnoresStatus(db.syncs, after.syncs, db.syncs[id].lead, |db.syncs|);
  }

  lemma {:induction false} LatestIgnoresStatus(a: seq<Sync>, b: seq<Sync>, lead: LeadId, bound: nat)
    requires |a| == |b| && bound <= |a|
    requires forall i :: 0 <= i < |a| ==> a[i].lead == b[i].lead && a[i].op == b[i].op && a[i].generation == b[i].generation
    ensures LatestCreateBefore(a, lead, bound) == LatestCreateBefore(b, lead, bound)
  {
    if bound > 0 {
      LatestIgnoresStatus(a, b, lead, bound - 1);
    }
  }

  // ---------- retry budget ----------

  /** How many requests of the log were sent for one record. */
  function SentFor(log: seq<Request>, id: SyncId): nat {
    if log == [] then 0
    else SentFor(log[..|log| - 1], id) + (if log[|log| - 1].sync == id then 1 else 0)
  }

  function AttemptsSent(log: seq<Request>, id: SyncId): set<nat> {
    set q | 0 <= q < |log| && log[q].sync == id :: log[q].attempt
  }

  lemma {:induction false} SentForCountsAttempts(log: seq<Request>, id: SyncId)
    requires RequestsDistinct(log)
    ensures SentFor(log, id) == |AttemptsSent(log, id)|
  {
    if log != [] {
      var front, last := log[..|log| - 1], log[|log| - 1];
      SentForCountsAttempts(front, id);
      AttemptsOfExtendedLog(log, id);
      if last.sync == id {
        assert last.attempt !in AttemptsSent(front, id);
      }
    }
  }

  lemma AttemptsOfExtendedLog(log: seq<Request>, id: SyncId)
    requires log != []
    ensures var front, last := log[..|log| - 1], log[|log| - 1];
            AttemptsSent(log, id) == AttemptsSent(front, id) + (if last.sync == id then {last.attempt} else {})
  {
    var front := log[..|log| - 1];
    assert forall q :: 0 <= q < |front| ==> front[q] == log[q];
  }

  lemma {:induction false} BoundedSetIsSmall(s: set<nat>, bound: nat)
    requires forall x :: x in s ==> 1 <= x <= bound
    ensures |s| <= bound
    decreases bound
  {
    if bound == 0 {
      assert s == {};
    } else {
      BoundedSetIsSmall(s - {bound}, bound - 1);
      assert s <= (s - {bound}) + {bound};
    }
  }

  /**
    CRM is called for a create at most `retryLimit` times and for an update once, plus once for each claim that
    resumed an expired lease or an unknown outcome.
  */
  lemma CallsStayWithinBudget(cfg: Config, w0: World, steps: seq<Step>, id: SyncId)
    requires Init(w0) && cfg.retryLimit >= 1 && id < |Run(cfg, w0, steps).db.syncs|
    ensures var w := Run(cfg, w0, steps);
            SentFor(w.log, id) <= AttemptLimit(cfg, w.db.syncs[id].op) + w.recovered[id]
  {
    var w := Run(cfg, w0, steps);
    ReachableIsOk(cfg, w0, steps);
    SentForCountsAttempts(w.log, id);
    forall x | x in AttemptsSent(w.log, id)
      ensures 1 <= x <= w.db.syncs[id].attempts
    {
      var q :| 0 <= q < |w.log| && w.log[q].sync == id && w.log[q].attempt == x;
      assert RequestOk(w.db, w.log[q]);
    }
    BoundedSetIsSmall(AttemptsSent(w.log, id), w.db.syncs[id].attempts);
  }

  /** A claim is counted as a recovery exactly when it resumes an expired create lease or an unknown outcome. */
  lemma RecoveriesAreCounted(cfg: Config, w: World, id: SyncId, now: int, notify: bool)
    requires WorldOk(cfg, w) && cfg.retryLimit >= 1 && ClaimRecord(cfg, w.db, id, now, notify).Granted?
    ensures var s := w.db.syncs[id]; var after := Apply(cfg, w, ClaimStep(id, now, notify));
            after.recovered[id] == w.recovered[id]
              + (if IsUnknownCheckpoint(s) || (s.op == Create && LeaseExpired(s, now)) then 1 else 0)
  {
    assert RecordOk(w.db.syncs[id]);
  }

  // ---------- a whole retry sequence ----------

  /** What happens to one claimed attempt: when it is claimed, how it ends, and when that is recorded. */
  datatype Attempt = Attempt(claimedAt: int, notify: bool, phase: Phase, settledAt: int)

  predicate AwaitsAttempt(s: Sync) {
    s.status in {Pending, Retrying, AwaitingDuplicateConfirmation}
  }

  datatype DriveResult = DriveResult(db: Db, calls: nat)

  /** Claim, call, settle, and again, while the record is neither settled nor parked for review. */
  function Drive(cfg: Config, db: Db, id: SyncId, attempts: seq<Attempt>): DriveResult
    requires forall k :: 0 <= k < |attempts| ==> attempts[k].phase.Replied? || attempts[k].phase.Raised?
    decreases |attempts|
  {
    if attempts == [] || id >= |db.syncs| || !AwaitsAttempt(db.syncs[id]) then DriveResult(db, 0)
    else match ClaimRecord(cfg, db, id, attempts[0].claimedAt, attempts[0].notify)
      case Refused(refused, _) => DriveResult(refused, 0)
      case Granted(claimed, claim, _) =>
        var rest := Drive(cfg, Settle(cfg, claimed, claim, attempts[0].phase, attempts[0].settledAt), id, attempts[1..]);
        DriveResult(rest.db, rest.calls + 1)
  }

  /** An open create is never blocked by an update of its lead. */
  lemma OpenCreateIsNotBlocked(db: Db, id: SyncId)
    requires Valid(db) && id < |db.syncs| && IsUnsettledCreate(db.syncs[id])
    ensures UnfinishedUpdate(db.syncs, db.syncs[id].lead, Some(id)).None?
  {
    var blocking := UnfinishedUpdate(db.syncs, db.syncs[id].lead, Some(id));
    if blocking.Some? {
      NoOpenCreateBesideUpdate(db, id, blocking.value);
    }
  }

  /** Where one settled attempt leaves the record it was claimed for. */
  lemma SettledAttemptShape(cfg: Config, db: Db, c: Claim, phase: Phase, now: int)
    requires c.sync < |db.syncs| && db.syncs[c.sync].op == Create && db.syncs[c.sync].lead in db.lifecycles
    requires ClaimIsCurrent(db.syncs[c.sync], c) && (phase.Replied? || phase.Raised?)
    ensures var after := Settle(cfg, db, c, phase, now);
            && |after.syncs| == |db.syncs| && after.syncs[c.sync].op == Create
            && after.syncs[c.sync].attempts == c.attempt
            && after.syncs[c.sync].status in {Succeeded, FailedPendingReview, Retrying}
  {
  }

  lemma SettleKeepsValid(cfg: Config, db: Db, c: Claim, phase: Phase, now: int)
    requires Valid(db) && (phase.Replied? || phase.Raised?)
    ensures Valid(Settle(cfg, db, c, phase, now))
  {
    if phase.Replied? {
      SuccessKeepsValid(db, c, phase.result);
    } else if Dispatch(phase.error) == TransportFailure {
      TransportFailureKeepsValid(cfg, db, c, phase.error, now);
    } else {
      FailureKeepsValid(db, c, phase.error);
    }
  }

  lemma OpenCreateIsGranted(cfg: Config, db: Db, id: SyncId, now: int, notify: bool)
    requires Valid(db) && id < |db.syncs| && db.syncs[id].op == Create
    requires AwaitsAttempt(db.syncs[id]) && db.syncs[id].attempts < cfg.retryLimit
    ensures var r := ClaimRecord(cfg, db, id, now, notify);
            && r.Granted? && r.claim.sync == id && r.claim.attempt == db.syncs[id].attempts + 1
            && |r.db.syncs| == |db.syncs| && r.db.syncs[id].op == Create && r.db.lifecycles == db.lifecycles
            && r.db.syncs[id].lead in db.lifecycles && ClaimIsCurrent(r.db.syncs[id], r.claim)
  {
    OpenCreateIsNotBlocked(db, id);
    assert db.syncs[id].lead in db.lifecycles;
  }

  /** One claimed attempt ends settled, parked, or scheduled with one attempt more. */
  lemma AttemptProgress(cfg: Config, db: Db, id: SyncId, a: Attempt)
    requires Valid(db) && cfg.retryLimit >= 1 && id < |db.syncs| && db.syncs[id].op == Create
    requires AwaitsAttempt(db.syncs[id]) && db.syncs[id].attempts < cfg.retryLimit
    requires a.phase.Replied? || a.phase.Raised?
    ensures var r := ClaimRecord(cfg, db, id, a.claimedAt, a.notify);
            && r.Granted?
            && var after := Settle(cfg, r.db, r.claim, a.phase, a.settledAt);
            && Valid(after) && |after.syncs| == |db.syncs| && after.syncs[id].op == Create
            && after.syncs[id].attempts == db.syncs[id].attempts + 1
            && after.syncs[id].status in {Succeeded, FailedPendingReview, Retrying}
  {
    var r := ClaimRecord(cfg, db, id, a.claimedAt, a.notify);
    OpenCreateIsGranted(cfg, db, id, a.claimedAt, a.notify);
    assert Valid(r.db) by { ClaimKeepsValid(cfg, db, id, a.claimedAt, a.notify); }
    SettledAttemptShape(cfg, r.db, r.claim, a.phase, a.settledAt);
    SettleKeepsValid(cfg, r.db, r.claim, a.phase, a.settledAt);
  }

  /** A claim on a create that used up its attempts only parks it for review. */
  lemma ExhaustedCreateIsParked(cfg: Config, db: Db, id: SyncId, now: int, notify: bool)
    requires Valid(db) && id < |db.syncs| && db.syncs[id].op == Create
    requires AwaitsAttempt(db.syncs[id]) && db.syncs[id].attempts >= cfg.retryLimit
    ensures var r := ClaimRecord(cfg, db, id, now, notify);
            r.Refused? && id < |r.db.syncs| && IsUnknownCheckpoint(r.db.syncs[id])
  {
    OpenCreateIsNotBlocked(db, id);
  }

  /**
    However CRM answers, a create that is retried without recovery is settled or parked for review after at most
    `retryLimit - attempts` calls: the remaining attempts strictly decrease and one last claim parks it.
  */
  lemma {:induction false} RetriesTerminate(cfg: Config, db: Db, id: SyncId, attempts: seq<Attempt>)
    requires forall k :: 0 <= k < |attempts| ==> attempts[k].phase.Replied? || attempts[k].phase.Raised?
    requires Valid(db) && cfg.retryLimit >= 1 && id < |db.syncs| && db.syncs[id].op == Create
    requires AwaitsAttempt(db.syncs[id]) && db.syncs[id].attempts <= cfg.retryLimit
    requires |attempts| > cfg.retryLimit - db.syncs[id].attempts
    ensures var r := Drive(cfg, db, id, attempts);
            && id < |r.db.syncs| && r.db.syncs[id].status in {Succeeded, FailedPendingReview}
            && r.calls <= cfg.retryLimit - db.syncs[id].attempts
    decreases |attempts|
  {
    var a := attempts[0];
    if db.syncs[id].attempts == cfg.retryLimit {
      ExhaustedCreateIsParked(cfg, db, id, a.claimedAt, a.notify);
    } else {
      AttemptProgress(cfg, db, id, a);
      var r := ClaimRecord(cfg, db, id, a.claimedAt, a.notify);
      var after := Settle(cfg, r.db, r.claim, a.phase, a.settledAt);
      if AwaitsAttempt(after.syncs[id]) {
        RetriesTerminate(cfg, after, id, attempts[1..]);
      }
    }
  }

  // ---------- the retry scan ----------

  /** The WHERE clause of `retry_due_creates` (app/crm/service.py:470-490). */
  predicate IsDue(s: Sync, now: int) {
    && s.op == Create
    && (|| (s.status == Retrying && s.category == Some(Transient) && s.nextRetryAt.Some? && s.nextRetryAt.value <= now)
        || LeaseExpired(s, now))
  }

  /** Every record the scan picks is either called again or parked for review; none is passed over. */
  lemma DueCreateIsActedOn(cfg: Config, db: Db, id: SyncId, now: int)
    requires Valid(db) && cfg.retryLimit >= 1 && id < |db.syncs| && IsDue(db.syncs[id], now)
    ensures var r := ClaimRecord(cfg, db, id, now, true);
            || r.Granted?
            || (IsUnknownCheckpoint(r.db.syncs[id]) && db.syncs[id].attempts >= cfg.retryLimit)
  {
    OpenCreateIsNotBlocked(db, id);
  }

  // ---------- a retry limit of zero ----------

  /** A legacy create that still carries the CRM target of its duplicate check. */
  function LegacyCreate(): Sync {
    Sync(0, Create, 1, None, CreateKey(0, 1), Payload("N", map[]), "h", Some("u"), Some("old"), Some("owner"),
         AwaitingDuplicateConfirmation, 0, None, None, None, None, None, false)
  }

  function LegacyDb(): Db {
    Db([LegacyCreate()], map["N" := Identity(Reserving, None, None, Some(0), Some(0))], map[], map[0 := Temporary])
  }

  /**
    Legacy tables with a pending discard are possible initial tables: stopping the create that waits for a decision
    then leaves the discard pending with no create in flight.
  */
  lemma LegacyDiscardCanBeStranded(cfg: Config)
    ensures var w0 := World(LegacyDb().(discards := map[0 := DiscardPending]), map[], [], [], multiset{}, {});
            var after := Run(cfg, w0, [StopStep([0])]).db;
            && Init(w0) && after.discards == map[0 := DiscardPending]
            && |after.syncs| == 1 && after.syncs[0].status == Abandoned
  {
    var db := LegacyDb().(discards := map[0 := DiscardPending]);
    var w0 := World(db, map[], [], [], multiset{}, {});
    LegacyIsValid(db);
    assert [StopStep([0])][..0] == [] && Run(cfg, w0, []) == w0;
    assert Enabled(w0, StopStep([0]));
    assert [0][..0] == [] && StopDuplicates(db, []) == db;
    assert StopDuplicates(db, [0]) == StopOne(db, 0);
  }

  lemma LegacyIsValid(db: Db)
    requires db == LegacyDb() || db == LegacyDb().(discards := map[0 := DiscardPending])
    ensures Valid(db)
  {
    assert db.syncs[0] == LegacyCreate();
    assert KeepsWaiting(db.syncs[0], 0);
    assert LinkedAt(db.syncs, 0);
    assert IdentityOk(db.identities["N"], "N", db.syncs);
  }

  /**
    Why the configuration must refuse a `crm_create_retry_count` of 0 (app/core/config.py:276-289): the first claim
    would park a legacy record without clearing its old target, and a follow-up reply without an identity would
    then leave that target on a succeeded record.
  */
  lemma ZeroRetryLimitKeepsOldTarget()
    ensures Valid(LegacyDb())
    ensures var cfg := Config(0, 300, 30);
            var parked := ClaimRecord(cfg, LegacyDb(), 0, 1, false).db;
            var resumed := ClaimRecord(cfg, parked, 0, 2, false);
            && resumed.Granted?
            && var reply := CrmResult(None, None, true, FollowUpAction);
            FinishSuccess(resumed.db, resumed.claim, reply).db.syncs[0].crmLead == Some("old")
  {
    LegacyIsValid(LegacyDb());
    assert LegacyDb().syncs[0] == LegacyCreate();
  }
}
