/** What a submission freezes is what it was asked to send, and that is what CRM is sent. */
module CrmFrozenFacts {
  import opened Common
  import opened Failures
  import opened CrmRecords
  import opened CrmTransactions
  import opened CrmInvariants
  import opened CrmSubmission
  import opened CrmWorld
  import opened CrmWorldPreservation
  import opened CrmTheorems
  import opened CrmReopening

  // ---------- one frozen record ----------

  /** The record repeats the data of the submission and waits for its first call. */
  predicate Carries(s: Sync, op: Operation, lead: LeadId, payload: Payload, hash: string, user: Option<string>) {
    && s.op == op && s.lead == lead && s.payload == payload && s.snapshotHash == hash && s.crmUser == user
  }

  predicate IsUntouched(s: Sync) {
    && s.status == Pending && s.attempts == 0
    && s.startedAt == None && s.leaseExpiresAt == None && s.nextRetryAt == None && s.category == None && s.kind == None
  }

  /**
    A newly frozen update is the only new row, carries the request, and is aimed at the CRM lead and owner of the
    last success; a request that finds its snapshot already frozen gets exactly that record and adds nothing.
  */
  lemma FrozenUpdateCarriesRequest(db: Db, req: UpdateRequest)
    requires req.base < |db.syncs| && FreezeUpdate(db, req).Frozen?
    ensures var r := FreezeUpdate(db, req);
            && r.sync < |r.db.syncs| && |r.db.syncs| <= |db.syncs| + 1
            && (forall i :: 0 <= i < |db.syncs| ==> r.db.syncs[i] == db.syncs[i])
            && (|r.db.syncs| == |db.syncs| + 1 ==>
                && r.sync == |db.syncs|
                && var s := r.db.syncs[r.sync];
                && Carries(s, Update, req.lead, req.payload, req.snapshotHash, req.crmUser) && IsUntouched(s)
                && s.crmLead == db.syncs[req.base].crmLead && s.crmOwner == db.syncs[req.base].crmOwner)
            && (|r.db.syncs| == |db.syncs| ==>
                && r.db == db && db.syncs[r.sync].op == Update && db.syncs[r.sync].lead == req.lead
                && db.syncs[r.sync].snapshotHash == req.snapshotHash && db.syncs[r.sync].status != Succeeded)
            && r.db.identities == db.identities && r.db.discards == db.discards && r.db.lifecycles == db.lifecycles
  {
  }

  /** A newly frozen create is the only new row and carries the request; it has no CRM identity of its own yet. */
  lemma FrozenCreateCarriesRequest(db: Db, req: CreateRequest, i: SyncId)
    requires |db.syncs| <= i < |FreezeCreate(db, req).db.syncs| && FreezeCreate(db, req).db.syncs[i].op == Create
    ensures var r := FreezeCreate(db, req);
            && r.Frozen? && i == |db.syncs| == r.sync && |r.db.syncs| == |db.syncs| + 1
            && Carries(r.db.syncs[i], Create, req.lead, req.payload, req.snapshotHash, req.crmUser)
            && IsUntouched(r.db.syncs[i]) && CarriesNoCrmIdentity(r.db.syncs[i])
  {
  }

  // ---------- over runs ----------

  /** The step froze a record with these data, in the world before it. */
  predicate Froze(w: World, step: Step, s: Sync) {
    && Enabled(w, step)
    && match s.op
       case Create => step.FreezeCreateStep? &&
         Carries(s, Create, step.create.lead, step.create.payload, step.create.snapshotHash, step.create.crmUser)
       case Update => step.FreezeUpdateStep? &&
         Carries(s, Update, step.update.lead, step.update.payload, step.update.snapshotHash, step.update.crmUser)
       case Validation => true
  }

  lemma NewRecordIsFrozen(cfg: Config, w: World, step: Step, i: SyncId)
    requires |w.db.syncs| <= i < |Apply(cfg, w, step).db.syncs|
    ensures Apply(cfg, w, step).db.syncs[i].op != Validation ==> Froze(w, step, Apply(cfg, w, step).db.syncs[i])
  {
    if Enabled(w, step) {
      match step
      case FreezeCreateStep(_, req) => NewRecordOfCreate(w.db, req, i);
      case FreezeUpdateStep(req) => NewRecordOfUpdate(w.db, req, i);
      case ClaimStep(id, now, notify) => ClaimAddsNothing(cfg, w.db, id, now, notify);
      case FinishStep(k, now) => SettleShrinks(cfg, w.db, w.calls[k].claim, w.calls[k].phase, now);
      case _ =>
    }
  }

  lemma NewRecordOfCreate(db: Db, req: CreateRequest, i: SyncId)
    requires |db.syncs| <= i < |FreezeCreate(db, req).db.syncs|
    ensures var s := FreezeCreate(db, req).db.syncs[i];
            s.op == Validation || Carries(s, Create, req.lead, req.payload, req.snapshotHash, req.crmUser)
  {
    if FreezeCreate(db, req).db.syncs[i].op == Create {
      FrozenCreateCarriesRequest(db, req, i);
    }
  }

  lemma NewRecordOfUpdate(db: Db, req: UpdateRequest, i: SyncId)
    requires req.base < |db.syncs| && |db.syncs| <= i < |FreezeUpdate(db, req).db.syncs|
    ensures var s := FreezeUpdate(db, req).db.syncs[i];
            s.op == Validation || Carries(s, Update, req.lead, req.payload, req.snapshotHash, req.crmUser)
  {
  }

  /** Every record that is no legacy row was frozen by a step of the run, from that step's data. */
  lemma {:induction false} RecordsComeFromSubmissions(cfg: Config, w0: World, steps: seq<Step>, i: SyncId) returns (k: nat)
    requires Init(w0) && cfg.retryLimit >= 1 && |w0.db.syncs| <= i < |Run(cfg, w0, steps).db.syncs|
    requires Run(cfg, w0, steps).db.syncs[i].op != Validation
    ensures k < |steps| && Froze(Run(cfg, w0, steps[..k]), steps[k], Run(cfg, w0, steps).db.syncs[i])
  {
    var front := steps[..|steps| - 1];
    var mid := Run(cfg, w0, front);
    if i < |mid.db.syncs| {
      LastStepKeepsFacts(cfg, w0, steps, i);
      k := RecordsComeFromSubmissions(cfg, w0, front, i);
      assert front[..k] == steps[..k];
      FrozeKeepsFacts(Run(cfg, w0, steps[..k]), steps[k], mid.db.syncs[i], Run(cfg, w0, steps).db.syncs[i]);
    } else {
      NewRecordIsFrozen(cfg, mid, steps[|steps| - 1], i);
      k := |steps| - 1;
    }
  }

  lemma LastStepKeepsFacts(cfg: Config, w0: World, steps: seq<Step>, i: SyncId)
    requires Init(w0) && cfg.retryLimit >= 1 && steps != []
    requires i < |Run(cfg, w0, steps[..|steps| - 1]).db.syncs|
    ensures i < |Run(cfg, w0, steps).db.syncs|
    ensures SameFrozenFacts(Run(cfg, w0, steps[..|steps| - 1]).db.syncs[i], Run(cfg, w0, steps).db.syncs[i])
  {
    var mid := Run(cfg, w0, steps[..|steps| - 1]);
    ReachableIsOk(cfg, w0, steps[..|steps| - 1]);
    StepKeepsWorld(cfg, mid, steps[|steps| - 1]);
    assert Evolves(mid.db.syncs[i], Run(cfg, w0, steps).db.syncs[i]);
  }

  lemma FrozeKeepsFacts(w: World, step: Step, s: Sync, t: Sync)
    requires Froze(w, step, s) && SameFrozenFacts(s, t)
    ensures Froze(w, step, t)
  {
  }

  /** The data of a request on the wire are those of the step that froze its record. */
  predicate SentFrom(step: Step, q: Request) {
    || (step.FreezeCreateStep? && q.key.CreateKey? && step.create.lead == q.key.lead
        && step.create.payload == q.payload && step.create.crmUser == Some(q.user))
    || (step.FreezeUpdateStep? && q.key.UpdateKey? && step.update.lead == q.key.lead
        && step.update.snapshotHash == q.key.hash
        && step.update.payload == q.payload && step.update.crmUser == Some(q.user))
  }

  /**
    Every request ever sent carries the payload and the CRM user of a submission of the run, made for the lead and
    snapshot its key names; only legacy creates are sent with the data the initial tables had.
  */
  lemma RequestsCarrySubmissions(cfg: Config, w0: World, steps: seq<Step>, q: nat) returns (k: nat)
    requires Init(w0) && cfg.retryLimit >= 1 && q < |Run(cfg, w0, steps).log|
    ensures var r := Run(cfg, w0, steps).log[q];
            if r.sync < |w0.db.syncs|
            then r.payload == w0.db.syncs[r.sync].payload && Some(r.user) == w0.db.syncs[r.sync].crmUser
            else k < |steps| && SentFrom(steps[k], r)
  {
    var w := Run(cfg, w0, steps);
    ReachableIsOk(cfg, w0, steps);
    assert RequestOk(w.db, w.log[q]);
    var i := w.log[q].sync;
    assert RecordOk(w.db.syncs[i]);
    k := 0;
    if i < |w0.db.syncs| {
      InitIsOk(cfg, w0);
      RunKeepsWorld(cfg, w0, steps);
      assert Evolves(w0.db.syncs[i], w.db.syncs[i]);
    } else {
      k := RecordsComeFromSubmissions(cfg, w0, steps, i);
    }
  }
}
