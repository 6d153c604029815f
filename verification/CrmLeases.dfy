/** How long a claim protects its holder, and from when on the record can be resumed (app/crm/service.py:2303-2366). */
module CrmLeases {
  import opened Common
  import opened Failures
  import opened CrmRecords
  import opened CrmTransactions
  import opened CrmInvariants
  import opened CrmPreservation
  import opened CrmWorld
  import opened CrmWorldPreservation
  import opened CrmTheorems
  import opened CrmSettlement

  // ---------- every lease runs for the configured time ----------

  predicate LeaseRuns(cfg: Config, s: Sync) {
    s.status == Processing ==> s.startedAt.Some? && s.leaseExpiresAt == Some(s.startedAt.value + cfg.lease)
  }

  ghost predicate LeasesRun(cfg: Config, syncs: seq<Sync>) {
    forall i :: 0 <= i < |syncs| ==> LeaseRuns(cfg, syncs[i])
  }

  /** A step that claims nothing makes no record processing. */
  ghost predicate OnlyOldProcessing(a: seq<Sync>, b: seq<Sync>) {
    |a| <= |b| && forall i :: 0 <= i < |b| && b[i].status == Processing ==> i < |a| && b[i] == a[i]
  }

  lemma SilentMeansOnlyOldProcessing(db: Db, after: Db)
    requires Records(after) && SyncsEvolve(db.syncs, after.syncs) && Silent(db.syncs, after.syncs)
    ensures OnlyOldProcessing(db.syncs, after.syncs)
  {
    forall i | 0 <= i < |after.syncs| && after.syncs[i].status == Processing
      ensures i < |db.syncs| && after.syncs[i] == db.syncs[i]
    {
      assert RecordOk(after.syncs[i]);
      if i < |db.syncs| { assert Evolves(db.syncs[i], after.syncs[i]); }
    }
  }

  lemma SuccessMeansOnlyOldProcessing(db: Db, c: Claim, r: CrmResult)
    ensures OnlyOldProcessing(db.syncs, FinishSuccess(db, c, r).db.syncs)
  {
  }

  lemma SettleMeansOnlyOldProcessing(cfg: Config, db: Db, c: Claim, phase: Phase, now: int)
    requires phase.Replied? || phase.Raised?
    requires var after := Settle(cfg, db, c, phase, now); Records(after) && SyncsEvolve(db.syncs, after.syncs)
    ensures OnlyOldProcessing(db.syncs, Settle(cfg, db, c, phase, now).syncs)
  {
    var after := Settle(cfg, db, c, phase, now);
    if phase.Replied? {
      SuccessMeansOnlyOldProcessing(db, c, phase.result);
    } else {
      FailureIsSilent(db, c, phase.error);
      TransportFailureIsSilent(cfg, db, c, phase.error, now);
      SilentMeansOnlyOldProcessing(db, after);
    }
  }

  /** A granted claim starts its own lease and leaves all other records alone. */
  lemma GrantStartsLease(cfg: Config, db: Db, id: SyncId, now: int, notify: bool)
    requires ClaimRecord(cfg, db, id, now, notify).Granted?
    ensures var r := ClaimRecord(cfg, db, id, now, notify);
            && id < |db.syncs| && |r.db.syncs| == |db.syncs|
            && (forall i :: 0 <= i < |db.syncs| && i != id ==> r.db.syncs[i] == db.syncs[i])
            && var s := r.db.syncs[id];
            && s.status == Processing && s.startedAt == Some(now) && s.leaseExpiresAt == Some(now + cfg.lease)
            && s.attempts == db.syncs[id].attempts + 1 && s.nextRetryAt == None
            && r.claim.sync == id && ClaimIsCurrent(s, r.claim) && r.claim.notify == notify
  {
  }

  lemma StepKeepsLeases(cfg: Config, w: World, step: Step)
    requires WorldOk(cfg, w) && cfg.retryLimit >= 1 && LeasesRun(cfg, w.db.syncs)
    ensures LeasesRun(cfg, Apply(cfg, w, step).db.syncs)
  {
    StepKeepsWorld(cfg, w, step);
    if Enabled(w, step) {
      if IsTableStep(step) {
        TableStepIsSilent(cfg, w, step);
        SilentMeansOnlyOldProcessing(w.db, Apply(cfg, w, step).db);
      } else if step.FinishStep? {
        var k := step.call;
        SettleMeansOnlyOldProcessing(cfg, w.db, w.calls[k].claim, w.calls[k].phase, step.now);
      } else if step.ClaimStep? {
        ClaimKeepsLeases(cfg, w, step.id, step.now, step.notify);
      }
    }
  }

  lemma ClaimKeepsLeases(cfg: Config, w: World, id: SyncId, now: int, notify: bool)
    requires LeasesRun(cfg, w.db.syncs)
    requires var after := ClaimRecord(cfg, w.db, id, now, notify).db;
             Records(after) && SyncsEvolve(w.db.syncs, after.syncs)
    ensures LeasesRun(cfg, ClaimRecord(cfg, w.db, id, now, notify).db.syncs)
    ensures Apply(cfg, w, ClaimStep(id, now, notify)).db == ClaimRecord(cfg, w.db, id, now, notify).db
  {
    ClaimStepDb(cfg, w, id, now, notify);
    if ClaimRecord(cfg, w.db, id, now, notify).Granted? {
      GrantKeepsLeases(cfg, w.db, id, now, notify);
    } else {
      RefusalIsSilent(cfg, w.db, id, now, notify);
      SilentMeansOnlyOldProcessing(w.db, ClaimRecord(cfg, w.db, id, now, notify).db);
    }
  }

  lemma GrantKeepsLeases(cfg: Config, db: Db, id: SyncId, now: int, notify: bool)
    requires LeasesRun(cfg, db.syncs) && ClaimRecord(cfg, db, id, now, notify).Granted?
    ensures LeasesRun(cfg, ClaimRecord(cfg, db, id, now, notify).db.syncs)
  {
    GrantStartsLease(cfg, db, id, now, notify);
    var after := ClaimRecord(cfg, db, id, now, notify).db.syncs;
    forall i | 0 <= i < |after|
      ensures LeaseRuns(cfg, after[i])
    {
      assert LeaseRuns(cfg, db.syncs[i]);
    }
  }

  /** In every reachable world every lease ends exactly `lease` after its claim. */
  lemma {:induction false} ReachableLeasesRun(cfg: Config, w0: World, steps: seq<Step>)
    requires Init(w0) && cfg.retryLimit >= 1
    ensures LeasesRun(cfg, Run(cfg, w0, steps).db.syncs)
  {
    if steps != [] {
      ReachableLeasesRun(cfg, w0, steps[..|steps| - 1]);
      ReachableIsOk(cfg, w0, steps[..|steps| - 1]);
      StepKeepsLeases(cfg, Run(cfg, w0, steps[..|steps| - 1]), steps[|steps| - 1]);
    }
  }

  // ---------- the holder is protected until its lease ends ----------

  /** Neither a claim at or after `end` on the same record, nor the finish of this very claim. */
  predicate Spares(w: World, step: Step, c: Claim, end: int) {
    && (step.ClaimStep? && step.id == c.sync ==> step.now < end)
    && (step.FinishStep? && Enabled(w, step) ==> !SameClaim(w.calls[step.call].claim, c))
  }

  predicate AllSpare(cfg: Config, w: World, more: seq<Step>, c: Claim, end: int) {
    more == [] ||
    (AllSpare(cfg, w, more[..|more| - 1], c, end) &&
     Spares(Run(cfg, w, more[..|more| - 1]), more[|more| - 1], c, end))
  }

  lemma SettleTouchesOne(cfg: Config, db: Db, c: Claim, phase: Phase, now: int, i: SyncId)
    requires (phase.Replied? || phase.Raised?) && i < |db.syncs|
    requires c.sync != i || !ClaimIsCurrent(db.syncs[i], c)
    ensures var after := Settle(cfg, db, c, phase, now).syncs; i < |after| && after[i] == db.syncs[i]
  {
  }

  lemma {:induction false} StopKeepsOthers(db: Db, ids: seq<SyncId>, i: SyncId)
    requires forall k :: 0 <= k < |ids| ==> ids[k] < |db.syncs|
    requires i < |db.syncs| && db.syncs[i].status == Processing
    ensures StopDuplicates(db, ids).syncs[i] == db.syncs[i]
  {
    if ids != [] {
      StopKeepsOthers(db, ids[..|ids| - 1], i);
    }
  }

  lemma FreezeCreateKeepsOthers(db: Db, req: CreateRequest, i: SyncId)
    requires i < |db.syncs| && db.syncs[i].status == Processing
    ensures var after := FreezeCreate(db, req).db.syncs; i < |after| && after[i] == db.syncs[i]
  {
  }

  lemma FreezeUpdateKeepsOthers(db: Db, req: UpdateRequest, i: SyncId)
    requires req.base < |db.syncs| && i < |db.syncs|
    ensures var after := FreezeUpdate(db, req).db.syncs; i < |after| && after[i] == db.syncs[i]
  {
  }

  /** A claim on the held record before the end of its lease is refused and changes nothing. */
  lemma EarlyClaimIsRefused(cfg: Config, db: Db, id: SyncId, t: int, notify: bool)
    requires id < |db.syncs| && db.syncs[id].status == Processing && db.syncs[id].leaseExpiresAt.Some?
    requires t < db.syncs[id].leaseExpiresAt.value
    ensures ClaimRecord(cfg, db, id, t, notify) == Refused(db, StatusOutcome(Processing))
  {
  }

  lemma OtherClaimTouchesOne(cfg: Config, db: Db, id: SyncId, now: int, notify: bool, i: SyncId)
    requires i < |db.syncs| && i != id
    ensures var after := ClaimRecord(cfg, db, id, now, notify).db.syncs; i < |after| && after[i] == db.syncs[i]
  {
  }

  lemma SparingStepKeepsRecord(cfg: Config, w: World, step: Step, c: Claim, end: int)
    requires Calls(w) && c.sync < |w.db.syncs| && ClaimIsCurrent(w.db.syncs[c.sync], c)
    requires w.db.syncs[c.sync].leaseExpiresAt == Some(end) && Spares(w, step, c, end)
    ensures var after := Apply(cfg, w, step).db.syncs; c.sync < |after| && after[c.sync] == w.db.syncs[c.sync]
  {
    var i := c.sync;
    if Enabled(w, step) {
      match step
      case FreezeCreateStep(_, req) => FreezeCreateKeepsOthers(w.db, req, i);
      case FreezeUpdateStep(req) => FreezeUpdateKeepsOthers(w.db, req, i);
      case StopStep(ids) => StopKeepsOthers(w.db, ids, i);
      case ClaimStep(id, now, notify) =>
        ClaimStepDb(cfg, w, id, now, notify);
        if id == i {
          EarlyClaimIsRefused(cfg, w.db, id, now, notify);
        } else {
          OtherClaimTouchesOne(cfg, w.db, id, now, notify, i);
        }
      case FinishStep(k, now) =>
        SettleTouchesOne(cfg, w.db, w.calls[k].claim, w.calls[k].phase, now, i);
      case _ =>
    }
  }

  lemma {:induction false} SparingRunKeepsRecord(cfg: Config, w: World, more: seq<Step>, c: Claim, end: int)
    requires WorldOk(cfg, w) && cfg.retryLimit >= 1
    requires c.sync < |w.db.syncs| && ClaimIsCurrent(w.db.syncs[c.sync], c)
    requires w.db.syncs[c.sync].leaseExpiresAt == Some(end) && AllSpare(cfg, w, more, c, end)
    ensures var later := Run(cfg, w, more).db.syncs; c.sync < |later| && later[c.sync] == w.db.syncs[c.sync]
  {
    if more != [] {
      var front := more[..|more| - 1];
      SparingRunKeepsRecord(cfg, w, front, c, end);
      RunKeepsWorld(cfg, w, front);
      SparingStepKeepsRecord(cfg, Run(cfg, w, front), more[|more| - 1], c, end);
    }
  }

  /**
    A claim granted at `now` keeps its record for `lease`: whatever else happens, as long as the worker does not
    finish and nobody claims the record at `now + lease` or later, the record stays as claimed and every claim at an
    earlier time is refused as still processing.
  */
  lemma ClaimProtectsHolder(
    cfg: Config, w: World, id: SyncId, now: int, notify: bool, more: seq<Step>, t: int, notify': bool)
    requires WorldOk(cfg, w) && cfg.retryLimit >= 1 && ClaimRecord(cfg, w.db, id, now, notify).Granted?
    requires AllSpare(
               cfg, Apply(cfg, w, ClaimStep(id, now, notify)), more,
               ClaimRecord(cfg, w.db, id, now, notify).claim, now + cfg.lease)
    requires t < now + cfg.lease
    ensures var later := Run(cfg, Apply(cfg, w, ClaimStep(id, now, notify)), more).db;
            && id < |later.syncs| && ClaimIsCurrent(later.syncs[id], ClaimRecord(cfg, w.db, id, now, notify).claim)
            && ClaimRecord(cfg, later, id, t, notify') == Refused(later, StatusOutcome(Processing))
  {
    GrantedWorldHolds(cfg, w, id, now, notify);
    HolderRefusesClaims(
      cfg, Apply(cfg, w, ClaimStep(id, now, notify)), ClaimRecord(cfg, w.db, id, now, notify).claim, more,
      now + cfg.lease, t, notify');
  }

  lemma GrantedWorldHolds(cfg: Config, w: World, id: SyncId, now: int, notify: bool)
    requires WorldOk(cfg, w) && cfg.retryLimit >= 1 && ClaimRecord(cfg, w.db, id, now, notify).Granted?
    ensures var after := Apply(cfg, w, ClaimStep(id, now, notify)); var c := ClaimRecord(cfg, w.db, id, now, notify).claim;
            && WorldOk(cfg, after) && c.sync == id && id < |after.db.syncs|
            && ClaimIsCurrent(after.db.syncs[id], c)
            && after.db.syncs[id].leaseExpiresAt == Some(now + cfg.lease)
  {
    StepKeepsWorld(cfg, w, ClaimStep(id, now, notify));
    ClaimStepDb(cfg, w, id, now, notify);
    GrantStartsLease(cfg, w.db, id, now, notify);
  }

  lemma HolderRefusesClaims(cfg: Config, w: World, c: Claim, more: seq<Step>, end: int, t: int, notify: bool)
    requires WorldOk(cfg, w) && cfg.retryLimit >= 1
    requires c.sync < |w.db.syncs| && ClaimIsCurrent(w.db.syncs[c.sync], c)
    requires w.db.syncs[c.sync].leaseExpiresAt == Some(end) && AllSpare(cfg, w, more, c, end) && t < end
    ensures var later := Run(cfg, w, more).db;
            && c.sync < |later.syncs| && ClaimIsCurrent(later.syncs[c.sync], c)
            && ClaimRecord(cfg, later, c.sync, t, notify) == Refused(later, StatusOutcome(Processing))
  {
    SparingRunKeepsRecord(cfg, w, more, c, end);
    EarlyClaimIsRefused(cfg, Run(cfg, w, more).db, c.sync, t, notify);
  }

  // ---------- from the end of the lease on ----------

  /** A create with a worker can be resumed exactly from the end of the lease on, however many attempts it has had. */
  lemma ProcessingCreateIsResumableIff(cfg: Config, w0: World, steps: seq<Step>, id: SyncId, t: int, notify: bool)
    requires Init(w0) && cfg.retryLimit >= 1 && id < |Run(cfg, w0, steps).db.syncs|
    requires var s := Run(cfg, w0, steps).db.syncs[id]; s.op == Create && s.status == Processing
    ensures var db := Run(cfg, w0, steps).db;
            && db.syncs[id].startedAt.Some?
            && (ClaimRecord(cfg, db, id, t, notify).Granted? <==> db.syncs[id].startedAt.value + cfg.lease <= t)
  {
    var db := Run(cfg, w0, steps).db;
    ReachableIsOk(cfg, w0, steps);
    ReachableLeasesRun(cfg, w0, steps);
    assert LeaseRuns(cfg, db.syncs[id]);
    OpenCreateIsNotBlocked(db, id);
  }

  /** An update with a worker is never resumed by a claim; it is parked exactly from the end of the lease on. */
  lemma ProcessingUpdateIsParkedIff(cfg: Config, w0: World, steps: seq<Step>, id: SyncId, t: int, notify: bool)
    requires Init(w0) && cfg.retryLimit >= 1 && id < |Run(cfg, w0, steps).db.syncs|
    requires var s := Run(cfg, w0, steps).db.syncs[id]; s.op == Update && s.status == Processing
    ensures var db := Run(cfg, w0, steps).db; var r := ClaimRecord(cfg, db, id, t, notify);
            && r.Refused? && id < |r.db.syncs| && db.syncs[id].startedAt.Some?
            && (IsUnknownCheckpoint(r.db.syncs[id]) <==> db.syncs[id].startedAt.value + cfg.lease <= t)
  {
    var db := Run(cfg, w0, steps).db;
    ReachableIsOk(cfg, w0, steps);
    ReachableLeasesRun(cfg, w0, steps);
    assert LeaseRuns(cfg, db.syncs[id]) && RecordOk(db.syncs[id]);
    if LeaseExpired(db.syncs[id], t) {
      ExpiredUpdateIsNotReplayed(cfg, db, id, t, notify);
    } else {
      EarlyClaimIsRefused(cfg, db, id, t, notify);
    }
  }
}
