/**
  What happens to a submission between its reading phase and its locked phase, and which command can submit an
  abandoned lead again, over all interleavings (app/crm/service.py:1686-2012).
*/
module CrmReopening {
  import opened Common
  import opened Failures
  import opened CrmRecords
  import opened CrmTransactions
  import opened CrmInvariants
  import opened CrmPreservation
  import opened CrmSubmission
  import opened CrmWorld
  import opened CrmWorldPreservation
  import opened CrmTheorems

  // ---------- no step waits for a duplicate decision or abandons anything but such a record ----------

  predicate LegacyStatusShrinks(s: Sync, t: Sync) {
    && (t.status == AwaitingDuplicateConfirmation ==> s.status == AwaitingDuplicateConfirmation)
    && (t.status == Abandoned ==> s.status in {AwaitingDuplicateConfirmation, Abandoned})
  }

  ghost predicate LegacyShrinks(a: seq<Sync>, b: seq<Sync>) {
    && |a| <= |b|
    && (forall i :: 0 <= i < |a| ==> LegacyStatusShrinks(a[i], b[i]))
    && (forall i :: |a| <= i < |b| ==> b[i].status !in {AwaitingDuplicateConfirmation, Abandoned})
  }

  lemma InsertShrinks(db: Db, req: CreateRequest, generation: nat, supersedes: Option<SyncId>)
    ensures LegacyShrinks(db.syncs, InsertCreate(db, req, generation, supersedes).db.syncs)
  {
  }

  lemma MappingMissingShrinks(db: Db, req: CreateRequest)
    ensures LegacyShrinks(
              db.syncs, RecordMappingMissing(db, req.lead, req.message, req.payload, req.snapshotHash, Create).syncs)
  {
  }

  lemma ReopenShrinks(db: Db, id: SyncId)
    requires id < |db.syncs|
    ensures LegacyShrinks(db.syncs, WithSync(db, id, Reopened(db.syncs[id])).syncs)
    ensures LegacyShrinks(db.syncs, db.syncs)
  {
  }

  lemma FreezeCreateShrinks(db: Db, req: CreateRequest)
    ensures LegacyShrinks(db.syncs, FreezeCreate(db, req).db.syncs)
  {
    var latest := LatestCreate(db.syncs, req.lead);
    if FreezeCreate(db, req).db.syncs == db.syncs {
    } else if req.crmUser == None {
      MappingMissingShrinks(db, req);
    } else if latest == None {
      InsertShrinks(db, req, 1, None);
    } else if db.syncs[latest.value].status == Abandoned {
      var generation := db.syncs[latest.value].generation;
      InsertShrinks(db, req, (if generation == 0 then 1 else generation) + 1, latest);
    } else {
      ReopenShrinks(db, latest.value);
    }
  }

  lemma FreezeUpdateShrinks(db: Db, req: UpdateRequest)
    requires req.base < |db.syncs|
    ensures LegacyShrinks(db.syncs, FreezeUpdate(db, req).db.syncs)
  {
  }

  lemma {:induction false} StopShrinks(db: Db, ids: seq<SyncId>)
    requires forall k :: 0 <= k < |ids| ==> ids[k] < |db.syncs|
    ensures LegacyShrinks(db.syncs, StopDuplicates(db, ids).syncs)
  {
    if ids != [] {
      StopShrinks(db, ids[..|ids| - 1]);
    }
  }

  lemma ClaimShrinks(cfg: Config, db: Db, id: SyncId, now: int, notify: bool)
    ensures LegacyShrinks(db.syncs, ClaimRecord(cfg, db, id, now, notify).db.syncs)
  {
  }

  lemma SuccessShrinks(db: Db, c: Claim, r: CrmResult)
    ensures LegacyShrinks(db.syncs, FinishSuccess(db, c, r).db.syncs)
    ensures |FinishSuccess(db, c, r).db.syncs| == |db.syncs|
  {
  }

  lemma FailureShrinks(db: Db, c: Claim, e: TaskError)
    ensures LegacyShrinks(db.syncs, RecordFailure(db, c, e).db.syncs)
    ensures |RecordFailure(db, c, e).db.syncs| == |db.syncs|
  {
  }

  lemma TransportFailureShrinks(cfg: Config, db: Db, c: Claim, e: TaskError, now: int)
    ensures LegacyShrinks(db.syncs, RecordTransportFailure(cfg, db, c, e, now).db.syncs)
    ensures |RecordTransportFailure(cfg, db, c, e, now).db.syncs| == |db.syncs|
  {
  }

  lemma SettleShrinks(cfg: Config, db: Db, c: Claim, phase: Phase, now: int)
    requires phase.Replied? || phase.Raised?
    ensures LegacyShrinks(db.syncs, Settle(cfg, db, c, phase, now).syncs)
    ensures |Settle(cfg, db, c, phase, now).syncs| == |db.syncs|
  {
    if phase.Replied? {
      SuccessShrinks(db, c, phase.result);
    } else if Dispatch(phase.error) == TransportFailure {
      TransportFailureShrinks(cfg, db, c, phase.error, now);
    } else {
      FailureShrinks(db, c, phase.error);
    }
  }

  lemma StepShrinks(cfg: Config, w: World, step: Step)
    ensures LegacyShrinks(w.db.syncs, Apply(cfg, w, step).db.syncs)
  {
    if Enabled(w, step) {
      match step
      case FreezeCreateStep(_, req) => FreezeCreateShrinks(w.db, req);
      case FreezeUpdateStep(req) => FreezeUpdateShrinks(w.db, req);
      case StopStep(ids) => StopShrinks(w.db, ids);
      case ClaimStep(id, now, notify) => ClaimShrinks(cfg, w.db, id, now, notify);
      case FinishStep(k, now) => SettleShrinks(cfg, w.db, w.calls[k].claim, w.calls[k].phase, now);
      case _ =>
    }
  }

  // ---------- what stays true of a submission that was let through ----------

  ghost predicate HasNoCreateIn(syncs: seq<Sync>, lead: LeadId, statuses: set<Status>) {
    forall i :: 0 <= i < |syncs| && IsCreateOf(syncs[i], lead) ==> syncs[i].status !in statuses
  }

  /**
    A submission that goes on to the locked phase passed the checks of the table snapshot; no create of its lead
    waits for a duplicate decision, and unless the dedicated command asked, none is abandoned.
  */
  ghost predicate ReadingOk(syncs: seq<Sync>, read: CreateRequest) {
    read.crmUser.Some? ==>
      && read.table.ownerAllowed && read.table.dateMatches && TableStatusAllowed(read)
      && HasNoCreateIn(syncs, read.lead, {AwaitingDuplicateConfirmation})
      && (!read.resubmitsAbandoned ==> HasNoCreateIn(syncs, read.lead, {Abandoned}))
  }

  ghost predicate ReadingsOk(w: World) {
    forall read :: read in w.readings ==> ReadingOk(w.db.syncs, read)
  }

  lemma ReadingIsOk(db: Db, read: CreateRequest)
    requires Valid(db) && (PlanCreate(db, read).Proceed? || PlanCreate(db, read).NoCrmUser?)
    ensures ReadingOk(db.syncs, read)
  {
    var latest := LatestCreate(db.syncs, read.lead);
    forall i | 0 <= i < |db.syncs| && IsCreateOf(db.syncs[i], read.lead)
      ensures db.syncs[i].status == Abandoned && latest.Some?
    {
      if latest != Some(i) { LatestDecides(db.syncs, read.lead, i); }
    }
  }

  lemma ReadingStaysOk(a: seq<Sync>, b: seq<Sync>, read: CreateRequest)
    requires ReadingOk(a, read) && LegacyShrinks(a, b) && SyncsEvolve(a, b)
    ensures ReadingOk(b, read)
  {
    forall i | 0 <= i < |b| && IsCreateOf(b[i], read.lead) && read.crmUser.Some?
      ensures b[i].status != AwaitingDuplicateConfirmation
      ensures !read.resubmitsAbandoned ==> b[i].status != Abandoned
    {
      if i < |a| {
        assert Evolves(a[i], b[i]) && LegacyStatusShrinks(a[i], b[i]) && IsCreateOf(a[i], read.lead);
      }
    }
  }

  lemma StepKeepsReadings(cfg: Config, w: World, step: Step)
    requires WorldOk(cfg, w) && cfg.retryLimit >= 1 && ReadingsOk(w)
    ensures ReadingsOk(Apply(cfg, w, step))
  {
    var after := Apply(cfg, w, step);
    StepKeepsWorld(cfg, w, step);
    StepShrinks(cfg, w, step);
    forall read | read in after.readings
      ensures ReadingOk(after.db.syncs, read)
    {
      if read in w.readings {
        ReadingStaysOk(w.db.syncs, after.db.syncs, read);
      } else {
        NewReadingIsOk(cfg, w, step, read);
      }
    }
  }

  lemma NewReadingIsOk(cfg: Config, w: World, step: Step, read: CreateRequest)
    requires Valid(w.db) && read in Apply(cfg, w, step).readings && read !in w.readings
    ensures ReadingOk(Apply(cfg, w, step).db.syncs, read)
  {
    ReadingIsOk(w.db, read);
  }

  lemma {:induction false} RunKeepsReadings(cfg: Config, w: World, steps: seq<Step>)
    requires WorldOk(cfg, w) && cfg.retryLimit >= 1 && ReadingsOk(w)
    ensures ReadingsOk(Run(cfg, w, steps))
  {
    if steps != [] {
      RunKeepsReadings(cfg, w, steps[..|steps| - 1]);
      RunKeepsWorld(cfg, w, steps[..|steps| - 1]);
      StepKeepsReadings(cfg, Run(cfg, w, steps[..|steps| - 1]), steps[|steps| - 1]);
    }
  }

  lemma ReachableReadingsAreOk(cfg: Config, w0: World, steps: seq<Step>)
    requires Init(w0) && cfg.retryLimit >= 1
    ensures ReadingsOk(Run(cfg, w0, steps)) && Valid(Run(cfg, w0, steps).db)
  {
    InitIsOk(cfg, w0);
    RunKeepsReadings(cfg, w0, steps);
    ReachableIsOk(cfg, w0, steps);
  }

  // ---------- when the locked phase freezes a create ----------

  /** What the locked phase reads again. */
  predicate Rechecked(db: Db, req: CreateRequest) {
    && req.scopeAuthorized && req.lead in db.lifecycles && req.table.recordMatches && req.crmUser.Some?
    && UnfinishedUpdate(db.syncs, req.lead, None).None?
  }

  /** No other lead holds the company name, and no failed submission spoiled it. */
  predicate NameFree(db: Db, req: CreateRequest) {
    var name := req.payload.name;
    name in db.identities ==>
      && db.identities[name].state != IdentityFailed
      && (db.identities[name].state == Reserving ==> db.identities[name].creatingLead == Some(req.lead))
  }

  /** The locked phase on its own, when the lead's latest create does not wait for a duplicate decision. */
  lemma LockedPhaseFreezesIff(db: Db, req: CreateRequest)
    requires Records(db) && req.table.ownerAllowed && req.table.dateMatches && TableStatusAllowed(req)
    requires var latest := LatestCreate(db.syncs, req.lead);
             latest.Some? ==> db.syncs[latest.value].status != AwaitingDuplicateConfirmation
    ensures var latest := LatestCreate(db.syncs, req.lead);
            FreezeCreate(db, req).Frozen? <==>
              (&& (if latest.Some? then db.syncs[latest.value].status == Abandoned else !req.resubmitsAbandoned)
               && Rechecked(db, req) && NameFree(db, req))
    ensures var latest := LatestCreate(db.syncs, req.lead); var r := FreezeCreate(db, req);
            r.Frozen? ==>
              && r.sync == |db.syncs|
              && (latest.None? ==> r.db.syncs == db.syncs + [NewCreate(req, 1, None)])
              && (latest.Some? ==> IsNextGeneration(db, req, latest.value, r.db.syncs))
  {
    var latest := LatestCreate(db.syncs, req.lead);
    if latest.Some? {
      assert RecordOk(db.syncs[latest.value]);
    }
  }

  predicate IsNextGeneration(db: Db, req: CreateRequest, latest: SyncId, after: seq<Sync>)
    requires latest < |db.syncs|
  {
    after == db.syncs + [NewCreate(req, db.syncs[latest].generation + 1, Some(latest))]
  }

  /**
    However long after the reading phase and whatever happened in between, an ordinary submission freezes a create
    if and only if its lead has no create at all, the rechecks pass and the name is free. So the branch of the
    locked phase that would reopen an abandoned lead for an ordinary command is never taken.
  */
  lemma OrdinarySubmissionFreezesIff(cfg: Config, w0: World, steps: seq<Step>, read: CreateRequest, req: CreateRequest)
    requires Init(w0) && cfg.retryLimit >= 1 && !read.resubmitsAbandoned
    requires Enabled(Run(cfg, w0, steps), FreezeCreateStep(read, req))
    ensures var db := Run(cfg, w0, steps).db; var r := FreezeCreate(db, req);
            && (r.Frozen? <==> LatestCreate(db.syncs, req.lead) == None && Rechecked(db, req) && NameFree(db, req))
            && (r.Frozen? ==> r.sync == |db.syncs| && r.db.syncs == db.syncs + [NewCreate(req, 1, None)])
  {
    ReachableReadingsAreOk(cfg, w0, steps);
    var db := Run(cfg, w0, steps).db;
    assert ReadingOk(db.syncs, read);
    var latest := LatestCreate(db.syncs, req.lead);
    assert latest.Some? ==> IsCreateOf(db.syncs[latest.value], read.lead);
    LockedPhaseFreezesIff(db, req);
  }

  /** The dedicated command freezes the next generation if and only if the latest create is abandoned by then. */
  lemma DedicatedSubmissionFreezesIff(cfg: Config, w0: World, steps: seq<Step>, read: CreateRequest, req: CreateRequest)
    requires Init(w0) && cfg.retryLimit >= 1 && read.resubmitsAbandoned
    requires Enabled(Run(cfg, w0, steps), FreezeCreateStep(read, req))
    ensures var db := Run(cfg, w0, steps).db; var r := FreezeCreate(db, req);
            var latest := LatestCreate(db.syncs, req.lead);
            && (r.Frozen? <==>
                  latest.Some? && db.syncs[latest.value].status == Abandoned && Rechecked(db, req) && NameFree(db, req))
            && (r.Frozen? ==> r.sync == |db.syncs| && IsNextGeneration(db, req, latest.value, r.db.syncs))
  {
    ReachableReadingsAreOk(cfg, w0, steps);
    var db := Run(cfg, w0, steps).db;
    assert ReadingOk(db.syncs, read);
    var latest := LatestCreate(db.syncs, req.lead);
    assert latest.Some? ==> IsCreateOf(db.syncs[latest.value], read.lead);
    LockedPhaseFreezesIff(db, req);
  }

  // ---------- an abandoned lead ----------

  /** No create of the lead is added, and the ones it has keep their place. */
  ghost predicate CreatesKept(a: seq<Sync>, b: seq<Sync>, lead: LeadId) {
    && |a| <= |b|
    && (forall i :: 0 <= i < |a| ==> SameFrozenFacts(a[i], b[i]))
    && forall i :: |a| <= i < |b| ==> !IsCreateOf(b[i], lead)
  }

  lemma LatestCreateKept(a: seq<Sync>, b: seq<Sync>, lead: LeadId)
    requires CreatesKept(a, b, lead)
    ensures LatestCreate(b, lead) == LatestCreate(a, lead)
  {
    var p, q := LatestCreate(a, lead), LatestCreate(b, lead);
    if p.Some? { assert SameFrozenFacts(a[p.value], b[p.value]); }
    if q.Some? {
      assert IsCreateOf(b[q.value], lead) && q.value < |a|;
      assert SameFrozenFacts(a[q.value], b[q.value]);
    }
  }

  lemma ClaimAddsNothing(cfg: Config, db: Db, id: SyncId, now: int, notify: bool)
    ensures |ClaimRecord(cfg, db, id, now, notify).db.syncs| == |db.syncs|
  {
  }

  lemma FreezeUpdateAddsNoCreate(db: Db, req: UpdateRequest, i: SyncId)
    requires req.base < |db.syncs| && |db.syncs| <= i < |FreezeUpdate(db, req).db.syncs|
    ensures FreezeUpdate(db, req).db.syncs[i].op != Create
  {
  }

  lemma FreezeCreateAddsItsOwn(db: Db, req: CreateRequest, i: SyncId)
    requires |db.syncs| <= i < |FreezeCreate(db, req).db.syncs| && FreezeCreate(db, req).db.syncs[i].op == Create
    ensures FreezeCreate(db, req).Frozen? && FreezeCreate(db, req).db.syncs[i].lead == req.lead
  {
  }

  /** Only the locked phase of a submission adds a create, and only for its own lead. */
  lemma NewCreatesAreSubmitted(cfg: Config, w: World, step: Step, i: SyncId)
    requires |w.db.syncs| <= i < |Apply(cfg, w, step).db.syncs| && Apply(cfg, w, step).db.syncs[i].op == Create
    ensures step.FreezeCreateStep? && Enabled(w, step) && FreezeCreate(w.db, step.create).Frozen?
    ensures Apply(cfg, w, step).db.syncs[i].lead == step.read.lead
  {
    if Enabled(w, step) {
      match step
      case FreezeCreateStep(_, req) => FreezeCreateAddsItsOwn(w.db, req, i);
      case FreezeUpdateStep(req) => FreezeUpdateAddsNoCreate(w.db, req, i);
      case ClaimStep(id, now, notify) => ClaimAddsNothing(cfg, w.db, id, now, notify);
      case FinishStep(k, now) => SettleShrinks(cfg, w.db, w.calls[k].claim, w.calls[k].phase, now);
      case _ =>
    }
  }

  /** Only the dedicated command ever submits an abandoned lead again. */
  lemma OnlyDedicatedCommandReopens(cfg: Config, w0: World, steps: seq<Step>, step: Step, lead: LeadId)
    requires Init(w0) && cfg.retryLimit >= 1
    requires var syncs := Run(cfg, w0, steps).db.syncs;
             LatestCreate(syncs, lead).Some? && syncs[LatestCreate(syncs, lead).value].status == Abandoned
    ensures var w := Run(cfg, w0, steps); var after := Apply(cfg, w, step).db.syncs;
            || LatestCreate(after, lead) == LatestCreate(w.db.syncs, lead)
            || (step.FreezeCreateStep? && step.read.resubmitsAbandoned && step.read.lead == lead)
  {
    var w := Run(cfg, w0, steps);
    var after := Apply(cfg, w, step).db.syncs;
    ReachableIsOk(cfg, w0, steps);
    StepKeepsWorld(cfg, w, step);
    if step.FreezeCreateStep? && step.read.resubmitsAbandoned && step.read.lead == lead {
    } else {
      forall i | |w.db.syncs| <= i < |after|
        ensures !IsCreateOf(after[i], lead)
      {
        if after[i].op == Create {
          NewCreatesAreSubmitted(cfg, w, step, i);
          if !step.read.resubmitsAbandoned {
            OrdinarySubmissionFreezesIff(cfg, w0, steps, step.read, step.create);
          }
        }
      }
      forall i | 0 <= i < |w.db.syncs|
        ensures SameFrozenFacts(w.db.syncs[i], after[i])
      {
        assert Evolves(w.db.syncs[i], after[i]);
      }
      LatestCreateKept(w.db.syncs, after, lead);
    }
  }
}
