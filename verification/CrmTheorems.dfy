/**
  What the CRM submission protocol guarantees in every reachable world, whatever the interleaving of
  transactions, remote calls, lost replies, crashes and takeovers.
*/
module CrmTheorems {
  import opened Common
  import opened Failures
  import opened CrmRecords
  import opened CrmTransactions
  import opened CrmInvariants
  import opened CrmPreservation
  import opened CrmWorld
  import opened CrmWorldPreservation

  // ---------- runs ----------

  lemma {:induction false} RunKeepsWorld(cfg: Config, w: World, steps: seq<Step>)
    requires WorldOk(cfg, w) && cfg.retryLimit >= 1
    ensures WorldOk(cfg, Run(cfg, w, steps)) && DbEvolves(w.db, Run(cfg, w, steps).db)
  {
    if steps == [] {
      LifecycleKeepsValid(w.db, w.db);
    } else {
      var mid := Run(cfg, w, steps[..|steps| - 1]);
      RunKeepsWorld(cfg, w, steps[..|steps| - 1]);
      StepKeepsWorld(cfg, mid, steps[|steps| - 1]);
      DbEvolvesTransitive(w.db, mid.db, Run(cfg, w, steps).db);
    }
  }

  lemma InitIsOk(cfg: Config, w: World)
    requires Init(w)
    ensures WorldOk(cfg, w)
  {
    forall i | 0 <= i < |w.db.syncs|
      ensures w.db.syncs[i].attempts == 0 && w.db.syncs[i].status != Succeeded
    {
      assert RecordOk(w.db.syncs[i]);
    }
  }

  /** Every reachable world satisfies the invariant. */
  lemma ReachableIsOk(cfg: Config, w: World, steps: seq<Step>)
    requires Init(w) && cfg.retryLimit >= 1
    ensures WorldOk(cfg, Run(cfg, w, steps))
  {
    InitIsOk(cfg, w);
    RunKeepsWorld(cfg, w, steps);
  }

  // ---------- at most one remote create for each lead ----------

  lemma SentCreatesAgree(w: World, a: nat, b: nat)
    requires Valid(w.db) && Requests(w) && a < |w.log| && b < |w.log|
    requires w.log[a].key.CreateKey? && w.log[b].key.CreateKey? && w.log[a].key.lead == w.log[b].key.lead
    ensures w.log[a].sync == w.log[b].sync && w.log[a].key == w.log[b].key
  {
    var i, j := w.log[a].sync, w.log[b].sync;
    assert RequestOk(w.db, w.log[a]) && RequestOk(w.db, w.log[b]);
    assert RecordOk(w.db.syncs[i]) && RecordOk(w.db.syncs[j]);
    if i != j {
      ProcessingCreateIsLatest(w.db.syncs, i, j);
    }
  }

  /** The remote holds at most one result for all create generations of a lead together. */
  lemma OneRemoteCreatePerLead(cfg: Config, w0: World, steps: seq<Step>, lead: LeadId, g: nat, h: nat)
    requires Init(w0) && cfg.retryLimit >= 1
    requires CreateKey(lead, g) in Run(cfg, w0, steps).ledger
    requires CreateKey(lead, h) in Run(cfg, w0, steps).ledger
    ensures g == h
  {
    var w := Run(cfg, w0, steps);
    ReachableIsOk(cfg, w0, steps);
    var a :| 0 <= a < |w.log| && w.log[a].key == CreateKey(lead, g);
    var b :| 0 <= b < |w.log| && w.log[b].key == CreateKey(lead, h);
    SentCreatesAgree(w, a, b);
  }

  /** No two records that may call CRM share an idempotency key: the unique index never fires on them. */
  lemma KeyDeterminesRecord(db: Db, i: SyncId, j: SyncId)
    requires Valid(db) && i < |db.syncs| && j < |db.syncs|
    requires db.syncs[i].op != Validation && db.syncs[i].key == db.syncs[j].key
    ensures i == j
  {
    assert RecordOk(db.syncs[i]) && RecordOk(db.syncs[j]);
    var low, high := if i < j then i else j, if i < j then j else i;
    if low < high {
      if db.syncs[i].op == Create {
        assert IsCreateOf(db.syncs[low], db.syncs[high].lead);
      } else {
        assert SameLeadUpdates(db.syncs[low], db.syncs[high]);
      }
      assert false;
    }
  }

  /** Every request ever sent under one key carries the same record, payload and CRM user. */
  lemma OneRequestPerKey(cfg: Config, w0: World, steps: seq<Step>, a: nat, b: nat)
    requires Init(w0) && cfg.retryLimit >= 1
    requires a < |Run(cfg, w0, steps).log| && b < |Run(cfg, w0, steps).log|
    requires Run(cfg, w0, steps).log[a].key == Run(cfg, w0, steps).log[b].key
    ensures var log := Run(cfg, w0, steps).log;
            log[a].sync == log[b].sync && log[a].payload == log[b].payload && log[a].user == log[b].user
  {
    var w := Run(cfg, w0, steps);
    ReachableIsOk(cfg, w0, steps);
    assert RequestOk(w.db, w.log[a]) && RequestOk(w.db, w.log[b]);
    assert RecordOk(w.db.syncs[w.log[a].sync]);
    KeyDeterminesRecord(w.db, w.log[a].sync, w.log[b].sync);
  }

  /** The generations of a lead are contiguous: below any create stand creates of all lower generations. */
  lemma {:induction false} GenerationsContiguous(syncs: seq<Sync>, j: SyncId, g: nat) returns (i: SyncId)
    requires Linked(syncs) && j < |syncs| && syncs[j].op == Create && 1 <= g <= syncs[j].generation
    ensures i <= j && IsCreateOf(syncs[i], syncs[j].lead) && syncs[i].generation == g
    decreases j
  {
    if g == syncs[j].generation {
      i := j;
    } else {
      assert LinkedAt(syncs, j);
      i := GenerationsContiguous(syncs, syncs[j].supersedes.value, g);
    }
  }

  /** Every create but the latest of its lead is abandoned and was never sent. */
  lemma SupersededNeverSent(cfg: Config, w0: World, steps: seq<Step>, i: SyncId, q: nat)
    requires Init(w0) && cfg.retryLimit >= 1
    requires var w := Run(cfg, w0, steps);
             i < |w.db.syncs| && w.db.syncs[i].op == Create && LatestCreate(w.db.syncs, w.db.syncs[i].lead) != Some(i)
             && q < |w.log|
    ensures var w := Run(cfg, w0, steps); w.db.syncs[i].status == Abandoned && w.log[q].sync != i
  {
    var w := Run(cfg, w0, steps);
    ReachableIsOk(cfg, w0, steps);
    LatestDecides(w.db.syncs, w.db.syncs[i].lead, i);
    assert RecordOk(w.db.syncs[i]);
    assert RequestOk(w.db, w.log[q]);
  }

  /** A succeeded create stores exactly what the remote stored under its key. */
  lemma SuccessIsWhatCrmStored(cfg: Config, w0: World, steps: seq<Step>, i: SyncId)
    requires Init(w0) && cfg.retryLimit >= 1
    requires i < |Run(cfg, w0, steps).db.syncs| && Run(cfg, w0, steps).db.syncs[i].status == Succeeded
    ensures var w := Run(cfg, w0, steps); var s := w.db.syncs[i];
            && s.key in w.ledger
            && (s.op == Create ==> s.crmLead == w.ledger[s.key].crmLead && s.crmOwner == w.ledger[s.key].crmOwner)
            && (w.ledger[s.key].crmLead.Some? ==> s.crmLead == w.ledger[s.key].crmLead)
  {
    ReachableIsOk(cfg, w0, steps);
    assert SuccessMatches(Run(cfg, w0, steps).db.syncs[i], Run(cfg, w0, steps).ledger);
  }

  // ---------- company reservation ----------

  /** Two open creates with one company name exist only once that company is active. */
  lemma OpenCreatesShareOnlyActiveNames(cfg: Config, w0: World, steps: seq<Step>, i: SyncId, j: SyncId)
    requires Init(w0) && cfg.retryLimit >= 1
    requires var db := Run(cfg, w0, steps).db;
             i < |db.syncs| && j < |db.syncs| && i != j
             && IsUnsettledCreate(db.syncs[i]) && IsUnsettledCreate(db.syncs[j])
             && db.syncs[i].payload.name == db.syncs[j].payload.name
    ensures var db := Run(cfg, w0, steps).db; var name := db.syncs[i].payload.name;
            name in db.identities && db.identities[name].state == Active
  {
    var db := Run(cfg, w0, steps).db;
    ReachableIsOk(cfg, w0, steps);
    if db.identities[db.syncs[i].payload.name].state != Active {
      ReservedAlone(db, i, j);
    }
  }

  /** A reserving identity points at one open create of its own name and lead, and no other open create has it. */
  lemma ReservationNamesItsCreate(cfg: Config, w0: World, steps: seq<Step>, name: string)
    requires Init(w0) && cfg.retryLimit >= 1
    requires var db := Run(cfg, w0, steps).db; name in db.identities && db.identities[name].state == Reserving
    ensures var db := Run(cfg, w0, steps).db; var d := db.identities[name];
            && d.creatingSync.Some? && d.creatingSync.value < |db.syncs|
            && IsUnsettledCreate(db.syncs[d.creatingSync.value])
            && db.syncs[d.creatingSync.value].payload.name == name
            && d.creatingLead == Some(db.syncs[d.creatingSync.value].lead)
            && forall j :: 0 <= j < |db.syncs| && IsUnsettledCreate(db.syncs[j]) && db.syncs[j].payload.name == name
                 ==> d.creatingSync == Some(j)
  {
    var db := Run(cfg, w0, steps).db;
    ReachableIsOk(cfg, w0, steps);
    assert IdentityOk(db.identities[name], name, db.syncs);
  }

  /** An active identity with a creating record repeats what CRM stored for that record. */
  lemma ActiveIdentityIsWhatCrmStored(cfg: Config, w0: World, steps: seq<Step>, name: string)
    requires Init(w0) && cfg.retryLimit >= 1
    requires var db := Run(cfg, w0, steps).db;
             name in db.identities && db.identities[name].state == Active && db.identities[name].creatingSync.Some?
    ensures var w := Run(cfg, w0, steps); var d := w.db.identities[name];
            && d.creatingSync.value < |w.db.syncs|
            && var s := w.db.syncs[d.creatingSync.value];
            && s.status == Succeeded && s.payload.name == name && s.key in w.ledger
            && d.crmLead.Some? && d.crmLead == w.ledger[s.key].crmLead && d.crmOwner == w.ledger[s.key].crmOwner
  {
    var w := Run(cfg, w0, steps);
    ReachableIsOk(cfg, w0, steps);
    var d := w.db.identities[name];
    assert IdentityOk(d, name, w.db.syncs);
    assert SuccessMatches(w.db.syncs[d.creatingSync.value], w.ledger);
  }

  /** From any reachable world on, a company that is active, or failed for review, stays exactly that. */
  lemma IdentitiesAreAbsorbing(cfg: Config, w0: World, steps: seq<Step>, more: seq<Step>, name: string)
    requires Init(w0) && cfg.retryLimit >= 1
    requires name in Run(cfg, w0, steps).db.identities
    requires Run(cfg, w0, steps).db.identities[name].state != Reserving
    ensures var later := Run(cfg, Run(cfg, w0, steps), more).db;
            name in later.identities && later.identities[name] == Run(cfg, w0, steps).db.identities[name]
  {
    ReachableIsOk(cfg, w0, steps);
    RunKeepsWorld(cfg, Run(cfg, w0, steps), more);
  }

  // ---------- fencing ----------

  predicate IsCurrentCall(w: World, k: nat)
    requires k < |w.calls|
  {
    w.calls[k].claim.sync < |w.db.syncs| && ClaimIsCurrent(w.db.syncs[w.calls[k].claim.sync], w.calls[k].claim)
  }

  lemma DistinctClaimsNameOneCall(calls: seq<Call>, i: nat, j: nat)
    requires CallsDistinct(calls) && i < |calls| && j < |calls| && SameClaim(calls[i].claim, calls[j].claim)
    ensures i == j
  {
  }

  /** Of all workers that hold a claim on one record, at most one is current. */
  lemma AtMostOneCurrentCall(cfg: Config, w0: World, steps: seq<Step>, i: nat, j: nat)
    requires Init(w0) && cfg.retryLimit >= 1
    requires var w := Run(cfg, w0, steps);
             i < |w.calls| && j < |w.calls| && w.calls[i].claim.sync == w.calls[j].claim.sync
             && IsCurrentCall(w, i) && IsCurrentCall(w, j)
    ensures i == j
  {
    var w := Run(cfg, w0, steps);
    ReachableIsOk(cfg, w0, steps);
    DistinctClaimsNameOneCall(w.calls, i, j);
  }

  /** The success or failure of a stale worker changes no table at all. */
  lemma StaleFinishChangesNothing(cfg: Config, w: World, k: nat, now: int)
    requires Enabled(w, FinishStep(k, now)) && !IsCurrentCall(w, k)
    ensures Apply(cfg, w, FinishStep(k, now)) == w.(calls := WithoutCall(w.calls, k))
  {
    assert Apply(cfg, w, FinishStep(k, now)).db == w.db;
  }

  /** A claim that is stale once is stale for ever. */
  lemma StaleStaysStale(cfg: Config, w: World, more: seq<Step>, c: Claim)
    requires WorldOk(cfg, w) && cfg.retryLimit >= 1
    requires c.sync < |w.db.syncs| && c.attempt <= w.db.syncs[c.sync].attempts
    requires !ClaimIsCurrent(w.db.syncs[c.sync], c)
    ensures c.sync < |Run(cfg, w, more).db.syncs| && !ClaimIsCurrent(Run(cfg, w, more).db.syncs[c.sync], c)
  {
    RunKeepsWorld(cfg, w, more);
    assert Evolves(w.db.syncs[c.sync], Run(cfg, w, more).db.syncs[c.sync]);
  }

  lemma GrantMakesCallStale(cfg: Config, w: World, id: SyncId, now: int, notify: bool, k: nat)
    requires Calls(w) && k < |w.calls| && w.calls[k].claim.sync == id
    requires id < |w.db.syncs| && ClaimRecord(cfg, w.db, id, now, notify).Granted?
    ensures var after := Apply(cfg, w, ClaimStep(id, now, notify)).db;
            && id < |after.syncs| && after.syncs[id].attempts == w.db.syncs[id].attempts + 1
            && w.calls[k].claim.attempt < after.syncs[id].attempts
            && !ClaimIsCurrent(after.syncs[id], w.calls[k].claim)
  {
    assert CallOk(w.db, w.ledger, w.calls[k]);
  }

  /** A granted claim raises the attempt number and makes every earlier call on the record stale for ever. */
  lemma ClaimFencesEarlierCalls(cfg: Config, w: World, id: SyncId, now: int, notify: bool, k: nat, more: seq<Step>)
    requires WorldOk(cfg, w) && cfg.retryLimit >= 1 && k < |w.calls| && w.calls[k].claim.sync == id
    requires ClaimRecord(cfg, w.db, id, now, notify).Granted?
    ensures var after := Apply(cfg, w, ClaimStep(id, now, notify));
            && after.db.syncs[id].attempts == w.db.syncs[id].attempts + 1
            && id < |Run(cfg, after, more).db.syncs|
            && !ClaimIsCurrent(Run(cfg, after, more).db.syncs[id], w.calls[k].claim)
  {
    StepKeepsWorld(cfg, w, ClaimStep(id, now, notify));
    GrantMakesCallStale(cfg, w, id, now, notify, k);
    StaleStaysStale(cfg, Apply(cfg, w, ClaimStep(id, now, notify)), more, w.calls[k].claim);
  }

  /** Succeeded, abandoned and confirmed-failed records never change again; frozen facts and attempts never go back. */
  lemma RecordsOnlyAdvance(cfg: Config, w0: World, steps: seq<Step>, more: seq<Step>, i: SyncId)
    requires Init(w0) && cfg.retryLimit >= 1 && i < |Run(cfg, w0, steps).db.syncs|
    ensures var s := Run(cfg, w0, steps).db.syncs[i];
            var later := Run(cfg, Run(cfg, w0, steps), more).db;
            && i < |later.syncs| && SameFrozenFacts(s, later.syncs[i]) && s.attempts <= later.syncs[i].attempts
            && (IsFinal(s) ==> later.syncs[i] == s)
  {
    ReachableIsOk(cfg, w0, steps);
    RunKeepsWorld(cfg, Run(cfg, w0, steps), more);
    assert Evolves(Run(cfg, w0, steps).db.syncs[i], Run(cfg, Run(cfg, w0, steps), more).db.syncs[i]);
  }

  // ---------- update exclusivity ----------

  lemma NoOpenCreateBesideUpdate(db: Db, i: SyncId, j: SyncId)
    requires Valid(db) && i < |db.syncs| && j < |db.syncs|
    requires db.syncs[i].op == Create && db.syncs[j].op == Update && db.syncs[i].lead == db.syncs[j].lead
    ensures db.syncs[i].status in {Succeeded, Abandoned}
  {
    assert HasAnchor(db.syncs, db.syncs[j].lead, db.syncs[j].payload.name);
    var k :| 0 <= k < |db.syncs| && IsAnchor(db.syncs[k], db.syncs[j].lead, db.syncs[j].payload.name);
    if i != k {
      ProcessingCreateIsLatest(db.syncs, k, i);
    }
  }

  lemma UpdatesAreOne(syncs: seq<Sync>, i: SyncId, j: SyncId)
    requires UpdatesExclusive(syncs) && i < |syncs| && j < |syncs| && SameLeadUpdates(syncs[i], syncs[j])
    requires || (IsUnfinishedUpdate(syncs[i]) && IsUnfinishedUpdate(syncs[j]))
             || syncs[i].snapshotHash == syncs[j].snapshotHash
    ensures i == j
  {
    if j < i {
      assert SameLeadUpdates(syncs[j], syncs[i]);
    }
  }

  /** A lead has at most one unfinished update, and no update is ever scheduled for an automatic retry. */
  lemma OneUnfinishedUpdatePerLead(cfg: Config, w0: World, steps: seq<Step>, i: SyncId, j: SyncId)
    requires Init(w0) && cfg.retryLimit >= 1
    requires var db := Run(cfg, w0, steps).db;
             i < |db.syncs| && j < |db.syncs| && db.syncs[i].lead == db.syncs[j].lead
             && IsUnfinishedUpdate(db.syncs[i]) && IsUnfinishedUpdate(db.syncs[j])
    ensures i == j && Run(cfg, w0, steps).db.syncs[i].status != Retrying
  {
    var db := Run(cfg, w0, steps).db;
    ReachableIsOk(cfg, w0, steps);
    assert RecordOk(db.syncs[i]);
    UpdatesAreOne(db.syncs, i, j);
  }

  /** At most one record of a lead, create or update, is with a worker. */
  lemma OneProcessingRecordPerLead(cfg: Config, w0: World, steps: seq<Step>, i: SyncId, j: SyncId)
    requires Init(w0) && cfg.retryLimit >= 1
    requires var db := Run(cfg, w0, steps).db;
             i < |db.syncs| && j < |db.syncs| && db.syncs[i].lead == db.syncs[j].lead
             && db.syncs[i].status == Processing && db.syncs[j].status == Processing
    ensures i == j
  {
    var db := Run(cfg, w0, steps).db;
    ReachableIsOk(cfg, w0, steps);
    assert RecordOk(db.syncs[i]) && RecordOk(db.syncs[j]);
    if db.syncs[i].op == Create && db.syncs[j].op == Update {
      NoOpenCreateBesideUpdate(db, i, j);
    } else if db.syncs[i].op == Update && db.syncs[j].op == Create {
      NoOpenCreateBesideUpdate(db, j, i);
    } else if db.syncs[i].op == Create {
      if i != j { ProcessingCreateIsLatest(db.syncs, i, j); }
    } else {
      OneUnfinishedUpdatePerLead(cfg, w0, steps, i, j);
    }
  }

  /** A claim is granted only while no other record of the lead is an unfinished update. */
  lemma UnfinishedUpdateBlocksClaims(cfg: Config, db: Db, id: SyncId, now: int, notify: bool, other: SyncId)
    requires ClaimRecord(cfg, db, id, now, notify).Granted?
    requires other < |db.syncs| && other != id && db.syncs[other].lead == db.syncs[id].lead
    ensures !IsUnfinishedUpdate(db.syncs[other])
  {
  }

  /** An update whose lease expired is parked for review; only an explicit resumption sends it again. */
  lemma ExpiredUpdateIsNotReplayed(cfg: Config, db: Db, id: SyncId, now: int, notify: bool)
    requires Valid(db) && id < |db.syncs| && db.syncs[id].op == Update && LeaseExpired(db.syncs[id], now)
    ensures var r := ClaimRecord(cfg, db, id, now, notify);
            r.Refused? && IsUnknownCheckpoint(r.db.syncs[id])
  {
    assert RecordOk(db.syncs[id]);
    var blocking := UnfinishedUpdate(db.syncs, db.syncs[id].lead, Some(id));
    if blocking.Some? {
      UpdatesAreOne(db.syncs, id, blocking.value);
      assert false;
    }
  }

  // ---------- company name of a lead ----------

  /** All succeeded records and all updates of a lead carry one company name. */
  lemma OneCompanyNamePerLead(cfg: Config, w0: World, steps: seq<Step>, i: SyncId, j: SyncId)
    requires Init(w0) && cfg.retryLimit >= 1
    requires var db := Run(cfg, w0, steps).db;
             i < |db.syncs| && j < |db.syncs| && db.syncs[i].lead == db.syncs[j].lead
             && (db.syncs[i].status == Succeeded || db.syncs[i].op == Update)
             && (db.syncs[j].status == Succeeded || db.syncs[j].op == Update)
    ensures var db := Run(cfg, w0, steps).db; db.syncs[i].payload.name == db.syncs[j].payload.name
  {
    var db := Run(cfg, w0, steps).db;
    ReachableIsOk(cfg, w0, steps);
    var a := AnchorOf(db, i);
    var b := AnchorOf(db, j);
    if a != b {
      ProcessingCreateIsLatest(db.syncs, a, b);
    }
  }

  lemma AnchorOf(db: Db, i: SyncId) returns (k: SyncId)
    requires Records(db) && Anchored(db.syncs) && i < |db.syncs|
    requires db.syncs[i].status == Succeeded || db.syncs[i].op == Update
    ensures k < |db.syncs| && IsAnchor(db.syncs[k], db.syncs[i].lead, db.syncs[i].payload.name)
  {
    assert RecordOk(db.syncs[i]);
    if db.syncs[i].op == Create {
      k := i;
    } else {
      assert HasAnchor(db.syncs, db.syncs[i].lead, db.syncs[i].payload.name);
      k :| 0 <= k < |db.syncs| && IsAnchor(db.syncs[k], db.syncs[i].lead, db.syncs[i].payload.name);
    }
  }

  /**
    When an update request is answered "unchanged": the payload equals the last snapshot, or some older succeeded
    update of the lead had this snapshot hash and nothing stops the request before that comparison.
  */
  lemma UnchangedIff(db: Db, req: UpdateRequest)
    requires Valid(db) && req.base < |db.syncs|
    ensures var r := FreezeUpdate(db, req); var previous := db.syncs[req.base].payload;
            (r.NotFrozen? && r.outcome == Unchanged) <==>
              && req.payload.name == previous.name
              && (|| req.payload == previous
                  || (&& req.lead in db.lifecycles && req.tableMatches && req.crmUser.Some?
                      && UnfinishedUpdate(db.syncs, req.lead, None).None?
                      && HasSucceededUpdate(db.syncs, req.lead, req.snapshotHash)))
  {
    if i :| 0 <= i < |db.syncs| && IsSucceededUpdate(db.syncs[i], req.lead, req.snapshotHash) {
      UpdatesAreOne(db.syncs, i, FindUpdate(db.syncs, req.lead, req.snapshotHash).value);
    }
  }

  predicate IsSucceededUpdate(s: Sync, lead: LeadId, hash: string) {
    SameSnapshotUpdate(s, lead, hash) && s.status == Succeeded
  }

  predicate HasSucceededUpdate(syncs: seq<Sync>, lead: LeadId, hash: string) {
    exists i :: 0 <= i < |syncs| && IsSucceededUpdate(syncs[i], lead, hash)
  }

  function DoneRecord(op: Operation, key: Key, payload: Payload, hash: string): Sync {
    Sync(0, op, if op == Create then 1 else 0, None, key, payload, hash, Some("u"), Some("c"), Some("o"), Succeeded, 1,
         None, None, None, None, None, false)
  }

  const AS_A := Payload("N", map["f" := "a"])
  const AS_B := Payload("N", map["f" := "b"])

  /** A lead that was created as A, updated to B and back to A. */
  function BackAndForth(): (db: Db)
    ensures |db.syncs| == 3
  {
    Db([DoneRecord(Create, CreateKey(0, 1), AS_A, "A"),
        DoneRecord(Update, UpdateKey(0, "B"), AS_B, "B"),
        DoneRecord(Update, UpdateKey(0, "A"), AS_A, "A")],
       map["N" := Identity(Active, Some("c"), Some("o"), Some(0), Some(0))], map[], map[0 := PendingUpdate])
  }

  /** So "unchanged" does not mean equal to what CRM has: updating this lead to B again is answered "unchanged". */
  lemma UnchangedNeedNotMatchLastSnapshot()
    ensures var db := BackAndForth();
            var req := UpdateRequest(0, 2, true, AS_B, "B", Some("u"), "m");
            && Valid(db) && Enabled(World(db, map[], [], [], multiset{}, {}), FreezeUpdateStep(req))
            && req.payload != db.syncs[req.base].payload && FreezeUpdate(db, req) == NotFrozen(db, Unchanged)
  {
    var db := BackAndForth();
    var req := UpdateRequest(0, 2, true, AS_B, "B", Some("u"), "m");
    BackAndForthIsValid();
    assert AS_B.fields["f"][0] != AS_A.fields["f"][0];
    assert IsSucceededUpdate(db.syncs[1], 0, "B");
    assert UnfinishedUpdate(db.syncs, 0, None).None?;
    UnchangedIff(db, req);
  }

  lemma BackAndForthIsValid()
    ensures Valid(BackAndForth())
  {
    var db := BackAndForth();
    assert db.syncs[0] == DoneRecord(Create, CreateKey(0, 1), AS_A, "A");
    assert db.syncs[1] == DoneRecord(Update, UpdateKey(0, "B"), AS_B, "B");
    assert db.syncs[2] == DoneRecord(Update, UpdateKey(0, "A"), AS_A, "A");
    DoneRecordsAreOk(db.syncs);
    assert "A" != "B" by { assert "A"[0] != "B"[0]; }
    assert IsAnchor(db.syncs[0], 0, "N");
    assert HasAnchor(db.syncs, 0, "N");
    assert UpdatesExclusive(db.syncs);
    assert IdentityOk(db.identities["N"], "N", db.syncs);
  }

  lemma DoneRecordsAreOk(syncs: seq<Sync>)
    requires |syncs| == 3
    requires syncs[0] == DoneRecord(Create, CreateKey(0, 1), AS_A, "A")
    requires syncs[1] == DoneRecord(Update, UpdateKey(0, "B"), AS_B, "B")
    requires syncs[2] == DoneRecord(Update, UpdateKey(0, "A"), AS_A, "A")
    ensures forall i :: 0 <= i < 3 ==> RecordOk(syncs[i])
    ensures Superseded(syncs) && Linked(syncs)
  {
    assert RecordOk(syncs[0]) && RecordOk(syncs[1]) && RecordOk(syncs[2]);
    assert LinkedAt(syncs, 0) && LinkedAt(syncs, 1) && LinkedAt(syncs, 2);
  }
}
