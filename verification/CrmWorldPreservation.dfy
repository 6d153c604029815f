/** Every step of the protocol keeps `CrmWorld.WorldOk`. */
module CrmWorldPreservation {
  import opened Common
  import opened Failures
  import opened CrmRecords
  import opened CrmTransactions
  import opened CrmInvariants
  import opened CrmPreservation
  import opened CrmWorld

  /** A transaction that neither starts an attempt nor reports a success. */
  ghost predicate Silent(a: seq<Sync>, b: seq<Sync>) {
    && |a| <= |b|
    && (forall i :: 0 <= i < |a| ==> b[i].attempts == a[i].attempts && (b[i].status == Succeeded ==> a[i].status == Succeeded))
    && (forall i :: |a| <= i < |b| ==> b[i].attempts == 0 && b[i].status != Succeeded)
  }

  // ---------- silent transactions ----------

  lemma InsertIsSilent(db: Db, req: CreateRequest, generation: nat, supersedes: Option<SyncId>)
    ensures Silent(db.syncs, InsertCreate(db, req, generation, supersedes).db.syncs)
  {
  }

  lemma MappingMissingIsSilent(db: Db, req: CreateRequest)
    ensures Silent(db.syncs, RecordMappingMissing(db, req.lead, req.message, req.payload, req.snapshotHash, Create).syncs)
  {
  }

  lemma ReopenIsSilent(db: Db, id: SyncId)
    requires id < |db.syncs|
    ensures Silent(db.syncs, WithSync(db, id, Reopened(db.syncs[id])).syncs)
  {
  }

  lemma NothingIsSilent(syncs: seq<Sync>)
    ensures Silent(syncs, syncs)
  {
  }

  lemma FreezeCreateIsSilent(db: Db, req: CreateRequest)
    ensures Silent(db.syncs, FreezeCreate(db, req).db.syncs)
  {
    var latest := LatestCreate(db.syncs, req.lead);
    var after := FreezeCreate(db, req).db.syncs;
    if after == db.syncs {
      NothingIsSilent(db.syncs);
    } else if req.crmUser == None {
      MappingMissingIsSilent(db, req);
    } else if latest == None {
      InsertIsSilent(db, req, 1, None);
    } else if db.syncs[latest.value].status == Abandoned {
      var generation := db.syncs[latest.value].generation;
      InsertIsSilent(db, req, (if generation == 0 then 1 else generation) + 1, latest);
    } else {
      ReopenIsSilent(db, latest.value);
    }
  }

  lemma FreezeUpdateIsSilent(db: Db, req: UpdateRequest)
    requires req.base < |db.syncs|
    ensures Silent(db.syncs, FreezeUpdate(db, req).db.syncs)
  {
  }

  lemma {:induction false} StopIsSilent(db: Db, ids: seq<SyncId>)
    requires forall k :: 0 <= k < |ids| ==> ids[k] < |db.syncs|
    ensures Silent(db.syncs, StopDuplicates(db, ids).syncs)
  {
    if ids != [] {
      StopIsSilent(db, ids[..|ids| - 1]);
    }
  }

  lemma FailureIsSilent(db: Db, c: Claim, e: TaskError)
    ensures Silent(db.syncs, RecordFailure(db, c, e).db.syncs)
  {
  }

  lemma TransportFailureIsSilent(cfg: Config, db: Db, c: Claim, e: TaskError, now: int)
    ensures Silent(db.syncs, RecordTransportFailure(cfg, db, c, e, now).db.syncs)
  {
  }

  // ---------- the traffic under a database step ----------

  lemma DbStepKeepsCalls(w: World, db: Db)
    requires Calls(w) && Requests(w) && SyncsEvolve(w.db.syncs, db.syncs)
    ensures Calls(w.(db := db)) && Requests(w.(db := db))
  {
    forall k | 0 <= k < |w.calls|
      ensures CallOk(db, w.ledger, w.calls[k])
    {
      assert CallOk(w.db, w.ledger, w.calls[k]);
      assert Evolves(w.db.syncs[w.calls[k].claim.sync], db.syncs[w.calls[k].claim.sync]);
    }
    forall k | 0 <= k < |w.log|
      ensures RequestOk(db, w.log[k])
    {
      assert RequestOk(w.db, w.log[k]);
      assert Evolves(w.db.syncs[w.log[k].sync], db.syncs[w.log[k].sync]);
    }
  }

  lemma SilentStepKeepsWorld(cfg: Config, w: World, db: Db)
    requires WorldOk(cfg, w) && Valid(db) && SyncsEvolve(w.db.syncs, db.syncs) && Silent(w.db.syncs, db.syncs)
    ensures WorldOk(cfg, w.(db := db))
  {
    var after := w.(db := db);
    DbStepKeepsCalls(w, db);
    assert SuccessesMatch(after) by {
      forall i | 0 <= i < |db.syncs| && db.syncs[i].status == Succeeded
        ensures SuccessMatches(db.syncs[i], w.ledger)
      {
        assert Evolves(w.db.syncs[i], db.syncs[i]);
        assert SuccessMatches(w.db.syncs[i], w.ledger);
      }
    }
    assert WithinBudget(cfg, after) by {
      forall i | 0 <= i < |db.syncs|
        ensures db.syncs[i].attempts <= AttemptLimit(cfg, db.syncs[i].op) + w.recovered[i]
      {
        if i < |w.db.syncs| {
          assert Evolves(w.db.syncs[i], db.syncs[i]);
        }
      }
    }
  }

  // ---------- claim ----------

  lemma ClaimKeepsBudget(cfg: Config, w: World, id: SyncId, now: int, notify: bool)
    requires Records(w.db) && WithinBudget(cfg, w)
    requires ClaimRecord(cfg, w.db, id, now, notify).Granted?
    ensures WithinBudget(cfg, Apply(cfg, w, ClaimStep(id, now, notify)))
  {
    var after := Apply(cfg, w, ClaimStep(id, now, notify));
    assert RecordOk(w.db.syncs[id]);
    forall i | 0 <= i < |after.db.syncs|
      ensures after.db.syncs[i].attempts <= AttemptLimit(cfg, after.db.syncs[i].op) + after.recovered[i]
    {
      assert w.db.syncs[i].attempts <= AttemptLimit(cfg, w.db.syncs[i].op) + w.recovered[i];
    }
  }

  /** A new call carries an attempt number that was never used for its record. */
  lemma AddCallKeepsTraffic(w: World, db: Db, claim: Claim)
    requires Traffic(w) && SyncsEvolve(w.db.syncs, db.syncs)
    requires claim.sync < |w.db.syncs| && claim.attempt == w.db.syncs[claim.sync].attempts + 1
    requires db.syncs[claim.sync].attempts == claim.attempt
    requires var s := w.db.syncs[claim.sync];
             claim.payload == s.payload && claim.key == s.key && claim.crmUser == s.crmUser
    requires SuccessesMatch(w.(db := db))
    ensures Traffic(w.(db := db, calls := w.calls + [NewCall(claim)]))
  {
    var calls := w.calls + [NewCall(claim)];
    DbStepKeepsCalls(w, db);
    assert CallOk(db, w.ledger, NewCall(claim)) by {
      assert Evolves(w.db.syncs[claim.sync], db.syncs[claim.sync]);
    }
    assert CallsDistinct(calls) by {
      forall i, j | 0 <= i < j < |calls|
        ensures !SameClaim(calls[i].claim, calls[j].claim)
      {
        assert CallOk(w.db, w.ledger, w.calls[i]);
        if j < |w.calls| { assert !SameClaim(w.calls[i].claim, w.calls[j].claim); }
      }
    }
    assert NotSent(w.log, claim) by {
      forall q | 0 <= q < |w.log|
        ensures !(w.log[q].sync == claim.sync && w.log[q].attempt == claim.attempt)
      {
        assert RequestOk(w.db, w.log[q]);
      }
    }
    assert Calls(w.(db := db, calls := calls)) by {
      forall k | 0 <= k < |calls|
        ensures CallOk(db, w.ledger, calls[k])
      {
        if k < |w.calls| { assert CallOk(w.(db := db).db, w.ledger, w.(db := db).calls[k]); }
      }
    }
  }

  lemma ClaimKeepsSuccesses(cfg: Config, w: World, id: SyncId, now: int, notify: bool)
    requires SuccessesMatch(w) && ClaimRecord(cfg, w.db, id, now, notify).Granted?
    ensures SuccessesMatch(w.(db := ClaimRecord(cfg, w.db, id, now, notify).db))
  {
    var db := ClaimRecord(cfg, w.db, id, now, notify).db;
    forall i | 0 <= i < |db.syncs| && db.syncs[i].status == Succeeded
      ensures SuccessMatches(db.syncs[i], w.ledger)
    {
      assert SuccessMatches(w.db.syncs[i], w.ledger);
    }
  }

  lemma ClaimKeepsTraffic(cfg: Config, w: World, id: SyncId, now: int, notify: bool)
    requires Traffic(w) && ClaimRecord(cfg, w.db, id, now, notify).Granted?
    requires SyncsEvolve(w.db.syncs, ClaimRecord(cfg, w.db, id, now, notify).db.syncs)
    ensures Traffic(Apply(cfg, w, ClaimStep(id, now, notify)))
  {
    var r := ClaimRecord(cfg, w.db, id, now, notify);
    var after := w.(db := r.db, calls := w.calls + [NewCall(r.claim)]);
    ClaimKeepsSuccesses(cfg, w, id, now, notify);
    AddCallKeepsTraffic(w, r.db, r.claim);
    RecoveredIsNoTraffic(after, Apply(cfg, w, ClaimStep(id, now, notify)).recovered);
  }

  lemma RecoveredIsNoTraffic(w: World, recovered: multiset<SyncId>)
    requires Traffic(w)
    ensures Traffic(w.(recovered := recovered))
  {
  }

  // ---------- remote traffic ----------

  lemma SendKeepsTraffic(cfg: Config, w: World, k: nat)
    requires Traffic(w) && Enabled(w, SendStep(k))
    ensures Traffic(Apply(cfg, w, SendStep(k)))
  {
    var after := Apply(cfg, w, SendStep(k));
    var c := w.calls[k].claim;
    assert CallOk(w.db, w.ledger, w.calls[k]);
    assert NotSent(w.log, c);
    forall i | 0 <= i < |after.calls|
      ensures CallOk(after.db, after.ledger, after.calls[i])
    {
      assert CallOk(w.db, w.ledger, w.calls[i]);
    }
    forall i, j | 0 <= i < j < |after.calls|
      ensures !SameClaim(after.calls[i].claim, after.calls[j].claim)
    {
      assert !SameClaim(w.calls[i].claim, w.calls[j].claim);
    }
    forall i | 0 <= i < |after.calls| && after.calls[i].phase == Ready
      ensures NotSent(after.log, after.calls[i].claim)
    {
      assert NotSent(w.log, w.calls[i].claim);
      assert !SameClaim(w.calls[i].claim, c) by {
        if i < k { assert !SameClaim(w.calls[i].claim, w.calls[k].claim); }
        else { assert !SameClaim(w.calls[k].claim, w.calls[i].claim); }
      }
    }
    forall key | key in after.ledger
      ensures exists q :: 0 <= q < |after.log| && after.log[q].key == key
    {
      var q :| 0 <= q < |w.log| && w.log[q].key == key;
      assert after.log[q].key == key;
    }
  }

  lemma RemoteKeepsTraffic(cfg: Config, w: World, q: nat, made: CrmResult)
    requires Traffic(w) && Enabled(w, RemoteStep(q, made))
    ensures Traffic(Apply(cfg, w, RemoteStep(q, made)))
  {
    var after := Apply(cfg, w, RemoteStep(q, made));
    forall i | 0 <= i < |after.calls|
      ensures CallOk(after.db, after.ledger, after.calls[i])
    {
      assert CallOk(w.db, w.ledger, w.calls[i]);
    }
    forall i | 0 <= i < |after.db.syncs| && after.db.syncs[i].status == Succeeded
      ensures SuccessMatches(after.db.syncs[i], after.ledger)
    {
      assert SuccessMatches(w.db.syncs[i], w.ledger);
    }
    forall key | key in after.ledger
      ensures exists q :: 0 <= q < |after.log| && after.log[q].key == key
    {
      if key !in w.ledger {
        assert after.log[q].key == key;
      }
    }
  }

  /** A worker learns its reply or its error; nothing else moves. */
  lemma PhaseKeepsTraffic(w: World, k: nat, phase: Phase)
    requires Traffic(w) && k < |w.calls| && (phase.Raised? || phase.Replied?)
    requires phase.Replied? ==>
      && w.calls[k].phase == Sent && w.calls[k].claim.key in w.ledger
      && phase.result == w.ledger[w.calls[k].claim.key]
    ensures Traffic(w.(calls := w.calls[k := w.calls[k].(phase := phase)]))
  {
    var after := w.(calls := w.calls[k := w.calls[k].(phase := phase)]);
    forall i | 0 <= i < |after.calls|
      ensures CallOk(after.db, after.ledger, after.calls[i])
    {
      assert CallOk(w.db, w.ledger, w.calls[i]);
    }
    forall i, j | 0 <= i < j < |after.calls|
      ensures !SameClaim(after.calls[i].claim, after.calls[j].claim)
    {
      assert !SameClaim(w.calls[i].claim, w.calls[j].claim);
    }
  }

  lemma DropKeepsTraffic(w: World, k: nat)
    requires Traffic(w) && k < |w.calls|
    ensures Traffic(w.(calls := WithoutCall(w.calls, k)))
  {
    var after := w.(calls := WithoutCall(w.calls, k));
    forall i | 0 <= i < |after.calls|
      ensures CallOk(after.db, after.ledger, after.calls[i])
    {
      assert CallOk(w.db, w.ledger, w.calls[if i < k then i else i + 1]);
    }
    forall i, j | 0 <= i < j < |after.calls|
      ensures !SameClaim(after.calls[i].claim, after.calls[j].claim)
    {
      assert !SameClaim(w.calls[if i < k then i else i + 1].claim, w.calls[if j < k then j else j + 1].claim);
    }
    forall i | 0 <= i < |after.calls| && after.calls[i].phase == Ready
      ensures NotSent(after.log, after.calls[i].claim)
    {
      assert NotSent(w.log, w.calls[if i < k then i else i + 1].claim);
    }
  }

  // ---------- finish ----------

  lemma SuccessKeepsSuccesses(w: World, k: nat)
    requires Records(w.db) && Calls(w) && SuccessesMatch(w) && k < |w.calls| && w.calls[k].phase.Replied?
    ensures SuccessesMatch(w.(db := FinishSuccess(w.db, w.calls[k].claim, w.calls[k].phase.result).db))
  {
    var c, r := w.calls[k].claim, w.calls[k].phase.result;
    var db := FinishSuccess(w.db, c, r).db;
    assert CallOk(w.db, w.ledger, w.calls[k]);
    assert RecordOk(w.db.syncs[c.sync]);
    forall i | 0 <= i < |db.syncs| && db.syncs[i].status == Succeeded
      ensures SuccessMatches(db.syncs[i], w.ledger)
    {
      if w.db.syncs[i].status == Succeeded {
        assert SuccessMatches(w.db.syncs[i], w.ledger);
      }
    }
  }

  lemma SuccessKeepsBudget(cfg: Config, w: World, c: Claim, r: CrmResult)
    requires WithinBudget(cfg, w)
    ensures WithinBudget(cfg, w.(db := FinishSuccess(w.db, c, r).db))
  {
    var db := FinishSuccess(w.db, c, r).db;
    forall i | 0 <= i < |db.syncs|
      ensures db.syncs[i].attempts <= AttemptLimit(cfg, db.syncs[i].op) + w.recovered[i]
    {
      assert w.db.syncs[i].attempts <= AttemptLimit(cfg, w.db.syncs[i].op) + w.recovered[i];
    }
  }

  lemma SuccessKeepsWorld(cfg: Config, w: World, k: nat, db: Db)
    requires WorldOk(cfg, w) && k < |w.calls| && w.calls[k].phase.Replied?
    requires db == FinishSuccess(w.db, w.calls[k].claim, w.calls[k].phase.result).db
    requires Valid(db) && SyncsEvolve(w.db.syncs, db.syncs)
    ensures WorldOk(cfg, w.(db := db))
  {
    DbStepKeepsCalls(w, db);
    SuccessKeepsSuccesses(w, k);
    SuccessKeepsBudget(cfg, w, w.calls[k].claim, w.calls[k].phase.result);
  }

  lemma ErrorKeepsWorld(cfg: Config, w: World, c: Claim, e: TaskError, now: int)
    requires WorldOk(cfg, w)
    ensures var db := Settle(cfg, w.db, c, Raised(e), now); WorldOk(cfg, w.(db := db)) && DbEvolves(w.db, db)
  {
    if Dispatch(e) == TransportFailure {
      TransportFailureKeepsValid(cfg, w.db, c, e, now);
      TransportFailureIsSilent(cfg, w.db, c, e, now);
    } else {
      FailureKeepsValid(w.db, c, e);
      FailureIsSilent(w.db, c, e);
    }
    SilentStepKeepsWorld(cfg, w, Settle(cfg, w.db, c, Raised(e), now));
  }

  lemma ReplyKeepsWorld(cfg: Config, w: World, k: nat)
    requires WorldOk(cfg, w) && k < |w.calls| && w.calls[k].phase.Replied?
    ensures var db := FinishSuccess(w.db, w.calls[k].claim, w.calls[k].phase.result).db;
            WorldOk(cfg, w.(db := db)) && DbEvolves(w.db, db)
  {
    var c, r := w.calls[k].claim, w.calls[k].phase.result;
    SuccessKeepsValid(w.db, c, r);
    SuccessKeepsWorld(cfg, w, k, FinishSuccess(w.db, c, r).db);
  }

  lemma FinishedCallIsDropped(cfg: Config, w: World, k: nat)
    requires WorldOk(cfg, w) && k < |w.calls|
    ensures WorldOk(cfg, w.(calls := WithoutCall(w.calls, k)))
  {
    DropKeepsTraffic(w, k);
  }

  lemma FinishKeepsWorld(cfg: Config, w: World, k: nat, now: int)
    requires WorldOk(cfg, w) && Enabled(w, FinishStep(k, now))
    ensures WorldOk(cfg, Apply(cfg, w, FinishStep(k, now)))
    ensures DbEvolves(w.db, Apply(cfg, w, FinishStep(k, now)).db)
  {
    if w.calls[k].phase.Replied? {
      ReplyKeepsWorld(cfg, w, k);
    } else {
      ErrorKeepsWorld(cfg, w, w.calls[k].claim, w.calls[k].phase.error, now);
    }
    FinishedCallIsDropped(cfg, w.(db := Settle(cfg, w.db, w.calls[k].claim, w.calls[k].phase, now)), k);
  }

  // ---------- all steps ----------

  lemma ClaimStepKeepsWorld(cfg: Config, w: World, id: SyncId, now: int, notify: bool)
    requires WorldOk(cfg, w) && cfg.retryLimit >= 1
    ensures WorldOk(cfg, Apply(cfg, w, ClaimStep(id, now, notify)))
    ensures DbEvolves(w.db, Apply(cfg, w, ClaimStep(id, now, notify)).db)
  {
    ClaimKeepsValid(cfg, w.db, id, now, notify);
    ClaimStepDb(cfg, w, id, now, notify);
    if ClaimRecord(cfg, w.db, id, now, notify).Granted? {
      GrantKeepsTrafficAndBudget(cfg, w, id, now, notify);
    } else {
      RefusalKeepsWorld(cfg, w, id, now, notify);
    }
  }

  lemma ClaimStepDb(cfg: Config, w: World, id: SyncId, now: int, notify: bool)
    ensures Apply(cfg, w, ClaimStep(id, now, notify)).db == ClaimRecord(cfg, w.db, id, now, notify).db
  {
  }

  lemma GrantKeepsTrafficAndBudget(cfg: Config, w: World, id: SyncId, now: int, notify: bool)
    requires Records(w.db) && Traffic(w) && WithinBudget(cfg, w)
    requires ClaimRecord(cfg, w.db, id, now, notify).Granted?
    requires SyncsEvolve(w.db.syncs, ClaimRecord(cfg, w.db, id, now, notify).db.syncs)
    ensures var after := Apply(cfg, w, ClaimStep(id, now, notify)); Traffic(after) && WithinBudget(cfg, after)
  {
    ClaimKeepsBudget(cfg, w, id, now, notify);
    ClaimKeepsTraffic(cfg, w, id, now, notify);
  }

  lemma RefusalKeepsWorld(cfg: Config, w: World, id: SyncId, now: int, notify: bool)
    requires WorldOk(cfg, w) && ClaimRecord(cfg, w.db, id, now, notify).Refused?
    requires var db := ClaimRecord(cfg, w.db, id, now, notify).db; Valid(db) && DbEvolves(w.db, db)
    ensures var after := Apply(cfg, w, ClaimStep(id, now, notify));
            WorldOk(cfg, after) && after.db == ClaimRecord(cfg, w.db, id, now, notify).db
  {
    RefusalIsSilent(cfg, w.db, id, now, notify);
    SilentStepKeepsWorld(cfg, w, ClaimRecord(cfg, w.db, id, now, notify).db);
  }

  lemma RefusalIsSilent(cfg: Config, db: Db, id: SyncId, now: int, notify: bool)
    requires ClaimRecord(cfg, db, id, now, notify).Refused?
    ensures Silent(db.syncs, ClaimRecord(cfg, db, id, now, notify).db.syncs)
  {
  }

  predicate IsTableStep(step: Step) {
    || step.FreezeCreateStep? || step.NoCrmUserStep? || step.FreezeUpdateStep?
    || step.StopStep? || step.DiscardStep? || step.LifecycleStep?
  }

  lemma TableStepKeepsDb(cfg: Config, w: World, step: Step)
    requires Valid(w.db) && Enabled(w, step) && IsTableStep(step)
    ensures Valid(Apply(cfg, w, step).db) && DbEvolves(w.db, Apply(cfg, w, step).db)
  {
    match step
    case FreezeCreateStep(_, req) => FreezeCreateKeepsValid(w.db, req);
    case NoCrmUserStep(r) => MappingMissingKeepsValid(w.db, r.lead, r.message, r.payload, r.snapshotHash, Create);
    case FreezeUpdateStep(req) => FreezeUpdateKeepsValid(w.db, req);
    case StopStep(ids) => StopKeepsValid(w.db, ids);
    case DiscardStep(lead) => DiscardKeepsValid(w.db, lead);
    case LifecycleStep(lead, lifecycle) => LifecycleKeepsValid(w.db, Apply(cfg, w, step).db);
  }

  lemma TableStepIsSilent(cfg: Config, w: World, step: Step)
    requires Enabled(w, step) && IsTableStep(step)
    ensures Silent(w.db.syncs, Apply(cfg, w, step).db.syncs)
  {
    match step
    case FreezeCreateStep(_, req) => FreezeCreateIsSilent(w.db, req);
    case NoCrmUserStep(read) => MappingMissingIsSilent(w.db, read);
    case FreezeUpdateStep(req) => FreezeUpdateIsSilent(w.db, req);
    case StopStep(ids) => StopIsSilent(w.db, ids);
    case DiscardStep(lead) =>
    case LifecycleStep(lead, lifecycle) =>
  }

  lemma TableStepKeepsWorld(cfg: Config, w: World, step: Step)
    requires WorldOk(cfg, w) && Enabled(w, step) && IsTableStep(step)
    ensures WorldOk(cfg, Apply(cfg, w, step)) && DbEvolves(w.db, Apply(cfg, w, step).db)
  {
    var db := Apply(cfg, w, step).db;
    assert Apply(cfg, w, step) == w.(db := db);
    TableStepKeepsDb(cfg, w, step);
    TableStepIsSilent(cfg, w, step);
    SilentStepKeepsWorld(cfg, w, db);
  }

  lemma WireStepKeepsWorld(cfg: Config, w: World, step: Step)
    requires WorldOk(cfg, w) && Enabled(w, step)
    requires step.SendStep? || step.RemoteStep? || step.ReplyStep? || step.RaiseStep? || step.CrashStep?
    ensures WorldOk(cfg, Apply(cfg, w, step)) && Apply(cfg, w, step).db == w.db
  {
    match step
    case SendStep(k) => SendKeepsTraffic(cfg, w, k);
    case RemoteStep(q, made) => RemoteKeepsTraffic(cfg, w, q, made);
    case ReplyStep(k) => PhaseKeepsTraffic(w, k, Replied(w.ledger[w.calls[k].claim.key]));
    case RaiseStep(k, e) => PhaseKeepsTraffic(w, k, Raised(e));
    case CrashStep(k) => DropKeepsTraffic(w, k);
  }

  lemma ReadingKeepsWorld(cfg: Config, w: World, readings: set<CreateRequest>)
    requires WorldOk(cfg, w)
    ensures WorldOk(cfg, w.(readings := readings)) && DbEvolves(w.db, w.db)
  {
    LifecycleKeepsValid(w.db, w.db);
  }

  lemma StepKeepsWorld(cfg: Config, w: World, step: Step)
    requires WorldOk(cfg, w) && cfg.retryLimit >= 1
    ensures WorldOk(cfg, Apply(cfg, w, step)) && DbEvolves(w.db, Apply(cfg, w, step).db)
  {
    if Enabled(w, step) {
      match step
      case ClaimStep(id, now, notify) => ClaimStepKeepsWorld(cfg, w, id, now, notify);
      case FinishStep(k, now) => FinishKeepsWorld(cfg, w, k, now);
      case ReadCreateStep(req) => ReadingKeepsWorld(cfg, w, Apply(cfg, w, step).readings);
      case FreezeCreateStep(_, _) => TableStepKeepsWorld(cfg, w, step);
      case NoCrmUserStep(_) => TableStepKeepsWorld(cfg, w, step);
      case FreezeUpdateStep(_) => TableStepKeepsWorld(cfg, w, step);
      case StopStep(_) => TableStepKeepsWorld(cfg, w, step);
      case DiscardStep(_) => TableStepKeepsWorld(cfg, w, step);
      case LifecycleStep(_, _) => TableStepKeepsWorld(cfg, w, step);
      case SendStep(_) => WireStepKeepsWorld(cfg, w, step);
      case RemoteStep(_, _) => WireStepKeepsWorld(cfg, w, step);
      case ReplyStep(_) => WireStepKeepsWorld(cfg, w, step);
      case RaiseStep(_, _) => WireStepKeepsWorld(cfg, w, step);
      case CrashStep(_) => WireStepKeepsWorld(cfg, w, step);
    }
  }
}
