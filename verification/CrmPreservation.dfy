/** Every transaction keeps `CrmInvariants.Valid` and evolves the tables by `CrmInvariants.DbEvolves`. */
module CrmPreservation {
  import opened Common
  import opened Failures
  import opened CrmRecords
  import opened CrmTransactions
  import opened CrmInvariants

  // ---------- rewriting one record ----------

  lemma RewriteKeepsGenerations(syncs: seq<Sync>, id: SyncId, t: Sync)
    requires id < |syncs| && Evolves(syncs[id], t) && Superseded(syncs) && Linked(syncs)
    ensures Superseded(syncs[id := t]) && Linked(syncs[id := t])
  {
    var after := syncs[id := t];
    forall i, j | 0 <= i < j < |after| && IsCreateOf(after[i], after[j].lead) && after[j].op == Create
      ensures after[i].generation < after[j].generation && after[i].status == Abandoned
    {
      assert IsCreateOf(syncs[i], syncs[j].lead) && syncs[j].op == Create;
    }
    forall j | 0 <= j < |after|
      ensures LinkedAt(after, j)
    {
      assert LinkedAt(syncs, j);
    }
  }

  lemma RewriteKeepsUpdates(syncs: seq<Sync>, id: SyncId, t: Sync)
    requires id < |syncs| && Evolves(syncs[id], t) && Anchored(syncs) && UpdatesExclusive(syncs)
    ensures Anchored(syncs[id := t]) && UpdatesExclusive(syncs[id := t])
  {
    var after := syncs[id := t];
    forall j | 0 <= j < |after| && after[j].op == Update
      ensures HasAnchor(after, after[j].lead, after[j].payload.name)
    {
      var i :| 0 <= i < |syncs| && IsAnchor(syncs[i], syncs[j].lead, syncs[j].payload.name);
      assert IsAnchor(after[i], after[j].lead, after[j].payload.name);
    }
    forall i, j | 0 <= i < j < |after| && SameLeadUpdates(after[i], after[j])
      ensures !(IsUnfinishedUpdate(after[i]) && IsUnfinishedUpdate(after[j]))
              && after[i].snapshotHash != after[j].snapshotHash
    {
      assert SameLeadUpdates(syncs[i], syncs[j]);
    }
  }

  lemma RewriteKeepsRecords(db: Db, id: SyncId, t: Sync)
    requires Records(db) && id < |db.syncs| && Evolves(db.syncs[id], t) && RecordOk(t)
    ensures Records(WithSync(db, id, t)) && SyncsEvolve(db.syncs, db.syncs[id := t])
  {
  }

  lemma QuietRewriteKeepsIdentities(db: Db, id: SyncId, t: Sync)
    requires Covered(db) && Pointing(db) && id < |db.syncs| && SameFrozenFacts(db.syncs[id], t)
    requires IsUnsettledCreate(db.syncs[id]) <==> IsUnsettledCreate(t)
    requires t == db.syncs[id] || !IsFinal(db.syncs[id])
    ensures Covered(WithSync(db, id, t)) && Pointing(WithSync(db, id, t))
  {
    var after := WithSync(db, id, t);
    forall n | n in after.identities
      ensures IdentityOk(after.identities[n], n, after.syncs)
    {
      assert IdentityOk(db.identities[n], n, db.syncs);
    }
  }

  lemma QuietRewriteKeepsDiscards(db: Db, id: SyncId, t: Sync)
    requires DiscardsYield(db) && DiscardsWait(db) && id < |db.syncs| && SameFrozenFacts(db.syncs[id], t)
    requires IsUnsettledCreate(db.syncs[id]) ==> IsUnsettledCreate(t)
    requires t == db.syncs[id] || (!IsFinal(db.syncs[id]) && t.status != Succeeded)
    ensures DiscardsYield(WithSync(db, id, t)) && DiscardsWait(WithSync(db, id, t))
  {
    var after := WithSync(db, id, t);
    forall l | l in after.discards && after.discards[l] == DiscardPending
      ensures exists i :: 0 <= i < |after.syncs| && KeepsWaiting(after.syncs[i], l)
    {
      var i :| 0 <= i < |db.syncs| && KeepsWaiting(db.syncs[i], l);
      assert KeepsWaiting(after.syncs[i], l);
    }
    forall i | 0 <= i < |after.syncs| && after.syncs[i].status == Succeeded
      ensures !LiveDiscard(after, after.syncs[i].lead)
    {
      assert !LiveDiscard(db, db.syncs[i].lead);
    }
  }

  /** A rewrite that settles nothing: claims, unknown outcomes, scheduled retries. */
  lemma QuietRewriteKeepsValid(db: Db, id: SyncId, t: Sync)
    requires Valid(db) && id < |db.syncs|
    requires Evolves(db.syncs[id], t) && RecordOk(t) && t.status != Succeeded
    requires IsUnsettledCreate(db.syncs[id]) ==> IsUnsettledCreate(t)
    requires !IsFinal(db.syncs[id])
    ensures Valid(WithSync(db, id, t)) && DbEvolves(db, WithSync(db, id, t))
  {
    RewriteKeepsRecords(db, id, t);
    RewriteKeepsGenerations(db.syncs, id, t);
    RewriteKeepsUpdates(db.syncs, id, t);
    QuietRewriteKeepsIdentities(db, id, t);
    QuietRewriteKeepsDiscards(db, id, t);
  }

  // ---------- claim ----------

  lemma ClaimKeepsValid(cfg: Config, db: Db, id: SyncId, now: int, notify: bool)
    requires Valid(db) && cfg.retryLimit >= 1
    ensures Valid(ClaimRecord(cfg, db, id, now, notify).db)
    ensures DbEvolves(db, ClaimRecord(cfg, db, id, now, notify).db)
  {
    var r := ClaimRecord(cfg, db, id, now, notify);
    if id < |db.syncs| && r.db != db {
      var s := db.syncs[id];
      assert RecordOk(s);
      if r.Granted? {
        QuietRewriteKeepsValid(db, id, ClaimedRecord(cfg, s, now));
      } else {
        QuietRewriteKeepsValid(db, id, MarkedUnknown(s));
      }
    }
  }

  // ---------- finish ----------

  /** Exactly the row filed under the record's own name can name it as creating record. */
  lemma IdentityFollowsName(db: Db, n: string, id: SyncId)
    requires Pointing(db) && PointsAt(db, n, id)
    ensures id < |db.syncs| && n == db.syncs[id].payload.name
  {
    assert IdentityOk(db.identities[n], n, db.syncs);
  }

  /** The unsettled record an identity reserves is the only unsettled create of that name. */
  lemma ReservedAlone(db: Db, i: SyncId, j: SyncId)
    requires Covered(db) && i < |db.syncs| && j < |db.syncs|
    requires IsUnsettledCreate(db.syncs[i]) && IsUnsettledCreate(db.syncs[j])
    requires db.syncs[i].payload.name == db.syncs[j].payload.name
    requires db.identities[db.syncs[i].payload.name].state != Active
    ensures i == j
  {
  }

  /** A processing create of a lead is its only unsettled or succeeded create. */
  lemma ProcessingCreateIsLatest(syncs: seq<Sync>, i: SyncId, j: SyncId)
    requires Superseded(syncs) && i < |syncs| && j < |syncs| && i != j
    requires syncs[i].op == Create && IsCreateOf(syncs[j], syncs[i].lead)
    requires syncs[i].status != Abandoned
    ensures j < i && syncs[j].status == Abandoned
  {
    if i < j {
      assert IsCreateOf(syncs[i], syncs[j].lead);
      assert false;
    }
  }

  lemma SuccessKeepsIdentities(db: Db, id: SyncId, t: Sync)
    requires Covered(db) && Pointing(db) && id < |db.syncs|
    requires RecordOk(db.syncs[id]) && db.syncs[id].status == Processing
    requires SameFrozenFacts(db.syncs[id], t) && t.status == Succeeded
    ensures var after := db.(syncs := db.syncs[id := t], identities := IdentitiesAfterSuccess(db, id, t));
            Covered(after) && Pointing(after) && IdentitiesEvolve(db.identities, after.identities)
  {
    var after := db.(syncs := db.syncs[id := t], identities := IdentitiesAfterSuccess(db, id, t));
    var name := t.payload.name;
    if PointsAt(db, name, id) {
      assert IdentityOk(db.identities[name], name, db.syncs);
    }
    forall i | 0 <= i < |after.syncs| && IsUnsettledCreate(after.syncs[i])
      ensures after.syncs[i].payload.name in after.identities
              && Covers(after.identities[after.syncs[i].payload.name], i, after.syncs[i].lead)
    {
      assert i != id && after.syncs[i] == db.syncs[i];
    }
    forall n | n in after.identities
      ensures IdentityOk(after.identities[n], n, after.syncs)
    {
      assert IdentityOk(db.identities[n], n, db.syncs);
    }
  }

  lemma SuccessKeepsDiscards(db: Db, id: SyncId, t: Sync)
    requires DiscardsYield(db) && DiscardsWait(db) && id < |db.syncs|
    requires SameFrozenFacts(db.syncs[id], t) && t.status == Succeeded && db.syncs[id].status == Processing
    ensures var after := db.(syncs := db.syncs[id := t], discards := DiscardsAfterSuccess(db, t.lead));
            DiscardsYield(after) && DiscardsWait(after) && DiscardsEvolve(db.discards, after.discards)
  {
    var after := db.(syncs := db.syncs[id := t], discards := DiscardsAfterSuccess(db, t.lead));
    forall i | 0 <= i < |after.syncs| && after.syncs[i].status == Succeeded
      ensures !LiveDiscard(after, after.syncs[i].lead)
    {
      if i != id {
        assert !LiveDiscard(db, db.syncs[i].lead);
      }
    }
    forall l | l in after.discards && after.discards[l] == DiscardPending
      ensures exists i :: 0 <= i < |after.syncs| && KeepsWaiting(after.syncs[i], l)
    {
      var i :| 0 <= i < |db.syncs| && KeepsWaiting(db.syncs[i], l);
      assert i != id;
      assert KeepsWaiting(after.syncs[i], l);
    }
  }

  /** A settling rewrite whose parts keep their invariants keeps them together. */
  lemma SettlingRewriteKeepsValid(db: Db, id: SyncId, t: Sync, after: Db)
    requires Valid(db) && id < |db.syncs| && Evolves(db.syncs[id], t) && RecordOk(t)
    requires after.syncs == db.syncs[id := t] && db.lifecycles.Keys <= after.lifecycles.Keys
    requires Covered(db.(syncs := after.syncs, identities := after.identities))
    requires Pointing(db.(syncs := after.syncs, identities := after.identities))
    requires IdentitiesEvolve(db.identities, after.identities)
    requires DiscardsYield(db.(syncs := after.syncs, discards := after.discards))
    requires DiscardsWait(db.(syncs := after.syncs, discards := after.discards))
    requires DiscardsEvolve(db.discards, after.discards)
    ensures Valid(after) && DbEvolves(db, after)
  {
    RewriteKeepsRecords(db, id, t);
    RewriteKeepsGenerations(db.syncs, id, t);
    RewriteKeepsUpdates(db.syncs, id, t);
    AssembleValid(db, after);
  }

  lemma AssembleValid(db: Db, after: Db)
    requires Records(db.(syncs := after.syncs)) && db.lifecycles.Keys <= after.lifecycles.Keys
    requires Superseded(after.syncs) && Linked(after.syncs)
    requires Anchored(after.syncs) && UpdatesExclusive(after.syncs)
    requires Covered(db.(syncs := after.syncs, identities := after.identities))
    requires Pointing(db.(syncs := after.syncs, identities := after.identities))
    requires DiscardsYield(db.(syncs := after.syncs, discards := after.discards))
    requires DiscardsWait(db.(syncs := after.syncs, discards := after.discards))
    ensures Valid(after)
  {
    assert Records(after) by {
      forall i | 0 <= i < |after.syncs|
        ensures RecordOk(after.syncs[i]) && after.syncs[i].lead in after.lifecycles
      {
        assert after.syncs[i].lead in db.lifecycles.Keys;
      }
    }
    assert DiscardsYield(after) by {
      var end := db.(syncs := after.syncs, discards := after.discards);
      forall i | 0 <= i < |after.syncs| && after.syncs[i].status == Succeeded
        ensures !LiveDiscard(after, after.syncs[i].lead)
      {
        assert !LiveDiscard(end, end.syncs[i].lead);
      }
    }
  }

  lemma SuccessKeepsValid(db: Db, c: Claim, r: CrmResult)
    requires Valid(db)
    ensures Valid(FinishSuccess(db, c, r).db) && DbEvolves(db, FinishSuccess(db, c, r).db)
  {
    var after := FinishSuccess(db, c, r).db;
    if after != db {
      var s := db.syncs[c.sync];
      var t := SucceededRecord(s, r);
      assert RecordOk(s);
      SuccessKeepsIdentities(db, c.sync, t);
      SuccessKeepsDiscards(db, c.sync, t);
      SettlingRewriteKeepsValid(db, c.sync, t, after);
    }
  }

  lemma FailureKeepsIdentities(db: Db, id: SyncId, t: Sync)
    requires Covered(db) && Pointing(db) && id < |db.syncs|
    requires db.syncs[id].status == Processing
    requires SameFrozenFacts(db.syncs[id], t) && t.status == FailedPendingReview && t.category != Some(Unknown)
    ensures var after := db.(syncs := db.syncs[id := t], identities := IdentitiesAfterFailure(db, id, t));
            Covered(after) && Pointing(after) && IdentitiesEvolve(db.identities, after.identities)
  {
    var after := db.(syncs := db.syncs[id := t], identities := IdentitiesAfterFailure(db, id, t));
    var name := t.payload.name;
    if PointsAt(db, name, id) {
      assert IdentityOk(db.identities[name], name, db.syncs);
    }
    forall i | 0 <= i < |after.syncs| && IsUnsettledCreate(after.syncs[i])
      ensures after.syncs[i].payload.name in after.identities
              && Covers(after.identities[after.syncs[i].payload.name], i, after.syncs[i].lead)
    {
      assert i != id && after.syncs[i] == db.syncs[i];
    }
    forall n | n in after.identities
      ensures IdentityOk(after.identities[n], n, after.syncs)
    {
      assert IdentityOk(db.identities[n], n, db.syncs);
      if db.identities[n].creatingSync == Some(id) {
        IdentityFollowsName(db, n, id);
      }
    }
  }

  lemma FailureKeepsDiscards(db: Db, id: SyncId, t: Sync)
    requires Records(db) && Superseded(db.syncs) && Anchored(db.syncs)
    requires DiscardsYield(db) && DiscardsWait(db) && id < |db.syncs|
    requires db.syncs[id].status == Processing
    requires SameFrozenFacts(db.syncs[id], t) && t.status == FailedPendingReview
    ensures var after := db.(syncs := db.syncs[id := t],
                             discards := if DiscardDue(db, t) then db.discards[t.lead := DiscardEffective]
                                         else db.discards);
            DiscardsYield(after) && DiscardsWait(after) && DiscardsEvolve(db.discards, after.discards)
  {
    var after := db.(syncs := db.syncs[id := t],
                     discards := if DiscardDue(db, t) then db.discards[t.lead := DiscardEffective] else db.discards);
    var s := db.syncs[id];
    forall i | 0 <= i < |after.syncs| && after.syncs[i].status == Succeeded
      ensures !LiveDiscard(after, after.syncs[i].lead)
    {
      assert i != id && db.syncs[i].status == Succeeded;
      assert !LiveDiscard(db, db.syncs[i].lead);
    }
    forall l | l in after.discards && after.discards[l] == DiscardPending
      ensures exists i :: 0 <= i < |after.syncs| && KeepsWaiting(after.syncs[i], l)
    {
      var i :| 0 <= i < |db.syncs| && KeepsWaiting(db.syncs[i], l);
      assert s.lead in db.lifecycles;
      assert i != id;
      assert KeepsWaiting(after.syncs[i], l);
    }
  }

  lemma FailureKeepsValid(db: Db, c: Claim, e: TaskError)
    requires Valid(db)
    ensures Valid(RecordFailure(db, c, e).db) && DbEvolves(db, RecordFailure(db, c, e).db)
  {
    var after := RecordFailure(db, c, e).db;
    if after != db {
      var s := db.syncs[c.sync];
      assert RecordOk(s);
      if OutcomeInDoubt(s.op, e) {
        QuietRewriteKeepsValid(db, c.sync, MarkedUnknown(FailedRecord(s, e)));
      } else {
        var t := FailedRecord(s, e);
        FailureKeepsIdentities(db, c.sync, t);
        FailureKeepsDiscards(db, c.sync, t);
        SettlingRewriteKeepsValid(db, c.sync, t, after);
      }
    }
  }

  lemma TransportFailureKeepsValid(cfg: Config, db: Db, c: Claim, e: TaskError, now: int)
    requires Valid(db)
    ensures Valid(RecordTransportFailure(cfg, db, c, e, now).db)
    ensures DbEvolves(db, RecordTransportFailure(cfg, db, c, e, now).db)
  {
    var after := RecordTransportFailure(cfg, db, c, e, now).db;
    if after != db {
      assert RecordOk(db.syncs[c.sync]);
      QuietRewriteKeepsValid(db, c.sync, after.syncs[c.sync]);
      assert after == WithSync(db, c.sync, after.syncs[c.sync]);
    }
  }

  // ---------- stop branch ----------

  lemma StopKeepsIdentities(db: Db, id: SyncId)
    requires Covered(db) && Pointing(db) && id < |db.syncs| && IsStoppable(db.syncs[id])
    ensures Covered(StopOne(db, id)) && Pointing(StopOne(db, id))
    ensures IdentitiesEvolve(db.identities, StopOne(db, id).identities)
  {
    var after := StopOne(db, id);
    var name := db.syncs[id].payload.name;
    forall i | 0 <= i < |after.syncs| && IsUnsettledCreate(after.syncs[i])
      ensures after.syncs[i].payload.name in after.identities
              && Covers(after.identities[after.syncs[i].payload.name], i, after.syncs[i].lead)
    {
      assert i != id && after.syncs[i] == db.syncs[i];
    }
    forall n | n in after.identities
      ensures IdentityOk(after.identities[n], n, after.syncs)
    {
      assert IdentityOk(db.identities[n], n, db.syncs);
      if db.identities[n].creatingSync == Some(id) {
        IdentityFollowsName(db, n, id);
      }
    }
  }

  lemma StopKeepsDiscards(db: Db, id: SyncId)
    requires DiscardsYield(db) && DiscardsWait(db) && id < |db.syncs| && IsStoppable(db.syncs[id])
    ensures DiscardsYield(StopOne(db, id)) && DiscardsWait(StopOne(db, id))
  {
    var after := StopOne(db, id);
    forall l | l in after.discards && after.discards[l] == DiscardPending
      ensures exists i :: 0 <= i < |after.syncs| && KeepsWaiting(after.syncs[i], l)
    {
      var i :| 0 <= i < |db.syncs| && KeepsWaiting(db.syncs[i], l);
      assert KeepsWaiting(after.syncs[i], l);
    }
    forall i | 0 <= i < |after.syncs| && after.syncs[i].status == Succeeded
      ensures !LiveDiscard(after, after.syncs[i].lead)
    {
      assert !LiveDiscard(db, db.syncs[i].lead);
    }
  }

  lemma StopOneKeepsValid(db: Db, id: SyncId)
    requires Valid(db) && id < |db.syncs|
    ensures Valid(StopOne(db, id)) && DbEvolves(db, StopOne(db, id))
  {
    if IsStoppable(db.syncs[id]) {
      assert RecordOk(db.syncs[id]);
      var t := StopOne(db, id).syncs[id];
      RewriteKeepsRecords(db, id, t);
      RewriteKeepsGenerations(db.syncs, id, t);
      RewriteKeepsUpdates(db.syncs, id, t);
      StopKeepsIdentities(db, id);
      StopKeepsDiscards(db, id);
    }
  }

  lemma {:induction false} StopKeepsValid(db: Db, ids: seq<SyncId>)
    requires Valid(db) && forall k :: 0 <= k < |ids| ==> ids[k] < |db.syncs|
    ensures Valid(StopDuplicates(db, ids)) && DbEvolves(db, StopDuplicates(db, ids))
  {
    if ids != [] {
      var mid := StopDuplicates(db, ids[..|ids| - 1]);
      StopKeepsValid(db, ids[..|ids| - 1]);
      StopOneKeepsValid(mid, ids[|ids| - 1]);
      DbEvolvesTransitive(db, mid, StopDuplicates(db, ids));
    }
  }

  // ---------- discard request ----------

  /** No other create of the lead is unsettled or succeeded when its latest one is settled without success. */
  lemma LatestDecides(syncs: seq<Sync>, lead: LeadId, i: SyncId)
    requires Superseded(syncs) && i < |syncs| && IsCreateOf(syncs[i], lead)
    ensures LatestCreate(syncs, lead).Some?
    ensures i == LatestCreate(syncs, lead).value
            || (i < LatestCreate(syncs, lead).value && syncs[i].status == Abandoned)
  {
    var latest := LatestCreate(syncs, lead).value;
    if i < latest {
      assert IsCreateOf(syncs[i], syncs[latest].lead);
    } else if latest < i {
      assert IsCreateOf(syncs[latest], syncs[i].lead);
      assert false;
    }
  }

  /** The discard service never deletes a reservation some create still relies on. */
  lemma ReleaseFindsNothing(db: Db, lead: LeadId)
    requires Superseded(db.syncs) && Pointing(db)
    requires LatestCreate(db.syncs, lead).Some? ==>
      !IsUnsettledCreate(db.syncs[LatestCreate(db.syncs, lead).value])
    ensures ReleaseReservations(db.identities, lead) == db.identities
  {
    forall n | n in db.identities
      ensures !(db.identities[n].state == Reserving && db.identities[n].creatingLead == Some(lead))
    {
      var d := db.identities[n];
      assert IdentityOk(d, n, db.syncs);
      if d.state == Reserving && d.creatingLead == Some(lead) {
        LatestDecides(db.syncs, lead, d.creatingSync.value);
      }
    }
  }

  /** A lead whose creates are all unsuccessful has no success at all. */
  lemma NoSuccessWithoutCreate(db: Db, lead: LeadId)
    requires Superseded(db.syncs) && Anchored(db.syncs) && Records(db)
    requires LatestCreate(db.syncs, lead).Some? ==>
      db.syncs[LatestCreate(db.syncs, lead).value].status != Succeeded
    ensures forall i :: 0 <= i < |db.syncs| && db.syncs[i].lead == lead ==>
      db.syncs[i].status != Succeeded && db.syncs[i].op != Update
  {
    forall i | 0 <= i < |db.syncs| && db.syncs[i].lead == lead
      ensures db.syncs[i].status != Succeeded && db.syncs[i].op != Update
    {
      assert RecordOk(db.syncs[i]);
      if db.syncs[i].op == Create {
        LatestDecides(db.syncs, lead, i);
      } else if db.syncs[i].op == Update {
        var k :| 0 <= k < |db.syncs| && IsAnchor(db.syncs[k], lead, db.syncs[i].payload.name);
        LatestDecides(db.syncs, lead, k);
      }
    }
  }

  lemma DiscardKeepsValid(db: Db, lead: LeadId)
    requires Valid(db)
    ensures Valid(RequestDiscard(db, lead).0) && DbEvolves(db, RequestDiscard(db, lead).0)
  {
    var after := RequestDiscard(db, lead).0;
    if after != db {
      var latest := LatestCreate(db.syncs, lead);
      assert after.identities == db.identities by {
        if !(latest.Some? && IsInFlightCreate(db.syncs[latest.value]))
           && (latest == None || db.syncs[latest.value].status == FailedPendingReview) {
          ReleaseFindsNothing(db, lead);
        }
      }
      assert DiscardsYield(after) && DiscardsWait(after) by {
        NoSuccessWithoutCreate(db, lead);
        DiscardKeepsDiscards(db, lead, after);
      }
      OnlyDiscardsChange(db, after);
    }
  }

  lemma OnlyDiscardsChange(db: Db, after: Db)
    requires Valid(db) && after.syncs == db.syncs && after.identities == db.identities
    requires db.lifecycles.Keys <= after.lifecycles.Keys && DiscardsEvolve(db.discards, after.discards)
    requires DiscardsYield(after) && DiscardsWait(after)
    ensures Valid(after) && DbEvolves(db, after)
  {
    forall i | 0 <= i < |after.syncs| && after.syncs[i].status == Succeeded
      ensures !LiveDiscard(db.(discards := after.discards), after.syncs[i].lead)
    {
      assert !LiveDiscard(after, after.syncs[i].lead);
    }
    AssembleValid(db, after);
  }

  lemma DiscardKeepsDiscards(db: Db, lead: LeadId, after: Db)
    requires DiscardsYield(db) && DiscardsWait(db)
    requires forall i :: 0 <= i < |db.syncs| && db.syncs[i].lead == lead ==> db.syncs[i].status != Succeeded
    requires after.syncs == db.syncs && lead !in db.discards
    requires after.discards.Keys == db.discards.Keys + {lead}
    requires forall l :: l in db.discards ==> after.discards[l] == db.discards[l]
    requires after.discards[lead] == DiscardPending ==>
      LatestCreate(db.syncs, lead).Some? && IsInFlightCreate(db.syncs[LatestCreate(db.syncs, lead).value])
    ensures DiscardsYield(after) && DiscardsWait(after)
  {
    forall l | l in after.discards && after.discards[l] == DiscardPending
      ensures exists i :: 0 <= i < |after.syncs| && KeepsWaiting(after.syncs[i], l)
    {
      if l == lead {
        assert KeepsWaiting(after.syncs[LatestCreate(db.syncs, lead).value], l);
      } else {
        assert l in db.discards;
      }
    }
    forall i | 0 <= i < |after.syncs| && after.syncs[i].status == Succeeded
      ensures !LiveDiscard(after, after.syncs[i].lead)
    {
      assert !LiveDiscard(db, db.syncs[i].lead);
    }
  }

  // ---------- inserting a record ----------

  /** What a new create must bring so that its lead's generations stay one chain. */
  ghost predicate ExtendsChain(syncs: seq<Sync>, t: Sync) {
    && (forall i :: 0 <= i < |syncs| && IsCreateOf(syncs[i], t.lead) ==>
          syncs[i].generation < t.generation && syncs[i].status == Abandoned)
    && LinkOk(syncs, t)
  }

  /** What a new update must bring. */
  ghost predicate ExtendsUpdates(syncs: seq<Sync>, t: Sync) {
    && HasAnchor(syncs, t.lead, t.payload.name)
    && forall i :: 0 <= i < |syncs| && SameLeadUpdates(syncs[i], t) ==>
         !IsUnfinishedUpdate(syncs[i]) && syncs[i].snapshotHash != t.snapshotHash
  }

  lemma AppendKeepsGenerations(syncs: seq<Sync>, t: Sync)
    requires Superseded(syncs) && Linked(syncs)
    requires t.op == Create ==> ExtendsChain(syncs, t)
    ensures Superseded(syncs + [t]) && Linked(syncs + [t])
  {
    var after := syncs + [t];
    forall i, j | 0 <= i < j < |after| && IsCreateOf(after[i], after[j].lead) && after[j].op == Create
      ensures after[i].generation < after[j].generation && after[i].status == Abandoned
    {
      assert after[i] == syncs[i];
      if j < |syncs| {
        assert IsCreateOf(syncs[i], syncs[j].lead);
      }
    }
    forall j | 0 <= j < |after|
      ensures LinkedAt(after, j)
    {
      assert after[..j] == syncs[..j];
      if j < |syncs| {
        assert LinkedAt(syncs, j);
      } else {
        assert syncs[..j] == syncs;
      }
    }
  }

  lemma AppendKeepsUpdates(syncs: seq<Sync>, t: Sync)
    requires Anchored(syncs) && UpdatesExclusive(syncs)
    requires t.op == Update ==> ExtendsUpdates(syncs, t)
    ensures Anchored(syncs + [t]) && UpdatesExclusive(syncs + [t])
  {
    var after := syncs + [t];
    forall j | 0 <= j < |after| && after[j].op == Update
      ensures HasAnchor(after, after[j].lead, after[j].payload.name)
    {
      assert HasAnchor(syncs, after[j].lead, after[j].payload.name);
      var i :| 0 <= i < |syncs| && IsAnchor(syncs[i], after[j].lead, after[j].payload.name);
      assert IsAnchor(after[i], after[j].lead, after[j].payload.name);
    }
    forall i, j | 0 <= i < j < |after| && SameLeadUpdates(after[i], after[j])
      ensures !(IsUnfinishedUpdate(after[i]) && IsUnfinishedUpdate(after[j]))
              && after[i].snapshotHash != after[j].snapshotHash
    {
      assert after[i] == syncs[i];
      if j < |syncs| {
        assert SameLeadUpdates(syncs[i], syncs[j]);
      }
    }
  }

  lemma AppendKeepsDiscards(db: Db, t: Sync)
    requires DiscardsYield(db) && DiscardsWait(db) && t.status != Succeeded
    ensures DiscardsYield(db.(syncs := db.syncs + [t])) && DiscardsWait(db.(syncs := db.syncs + [t]))
  {
    var after := db.(syncs := db.syncs + [t]);
    forall l | l in after.discards && after.discards[l] == DiscardPending
      ensures exists i :: 0 <= i < |after.syncs| && KeepsWaiting(after.syncs[i], l)
    {
      var i :| 0 <= i < |db.syncs| && KeepsWaiting(db.syncs[i], l);
      assert KeepsWaiting(after.syncs[i], l);
    }
    forall i | 0 <= i < |after.syncs| && after.syncs[i].status == Succeeded
      ensures !LiveDiscard(after, after.syncs[i].lead)
    {
      assert !LiveDiscard(db, db.syncs[i].lead);
    }
  }

  lemma AppendKeepsIdentities(db: Db, t: Sync)
    requires Covered(db) && Pointing(db) && !IsUnsettledCreate(t)
    ensures Covered(db.(syncs := db.syncs + [t])) && Pointing(db.(syncs := db.syncs + [t]))
  {
    var after := db.(syncs := db.syncs + [t]);
    forall n | n in after.identities
      ensures IdentityOk(after.identities[n], n, after.syncs)
    {
      assert IdentityOk(db.identities[n], n, db.syncs);
    }
  }

  lemma MappingMissingKeepsValid(
    db: Db, lead: LeadId, message: string, payload: Payload, hash: string, requested: Operation)
    requires Valid(db) && lead in db.lifecycles
    ensures Valid(RecordMappingMissing(db, lead, message, payload, hash, requested))
    ensures DbEvolves(db, RecordMappingMissing(db, lead, message, payload, hash, requested))
  {
    var after := RecordMappingMissing(db, lead, message, payload, hash, requested);
    var mid := db.(syncs := after.syncs);
    if |db.syncs| < |after.syncs| {
      var t := after.syncs[|db.syncs|];
      AppendKeepsIdentities(db, t);
      AppendKeepsValid(db, t, mid);
    }
    LifecycleKeepsValid(mid, after);
    DbEvolvesTransitive(db, mid, after);
  }

  /** Other services may move a lead's lifecycle and register new leads. */
  lemma LifecycleKeepsValid(db: Db, after: Db)
    requires Valid(db) && after == db.(lifecycles := after.lifecycles)
    requires db.lifecycles.Keys <= after.lifecycles.Keys
    ensures Valid(after) && DbEvolves(db, after)
  {
    assert DiscardsYield(db.(syncs := after.syncs, discards := after.discards));
    AssembleValid(db, after);
  }

  // ---------- freezing a create ----------

  lemma InsertKeepsIdentities(db: Db, req: CreateRequest, generation: nat, supersedes: Option<SyncId>)
    requires Covered(db) && Pointing(db)
    requires InsertCreate(db, req, generation, supersedes).Frozen?
    requires forall i :: 0 <= i < |db.syncs| && IsCreateOf(db.syncs[i], req.lead) ==> !IsUnsettledCreate(db.syncs[i])
    ensures var after := InsertCreate(db, req, generation, supersedes).db;
            Covered(after) && Pointing(after) && IdentitiesEvolve(db.identities, after.identities)
  {
    var after := InsertCreate(db, req, generation, supersedes).db;
    var name := req.payload.name;
    if name in db.identities {
      assert IdentityOk(db.identities[name], name, db.syncs);
    }
    forall i | 0 <= i < |after.syncs| && IsUnsettledCreate(after.syncs[i])
      ensures after.syncs[i].payload.name in after.identities
              && Covers(after.identities[after.syncs[i].payload.name], i, after.syncs[i].lead)
    {
      if i < |db.syncs| {
        assert after.syncs[i] == db.syncs[i];
      }
    }
    forall n | n in after.identities
      ensures IdentityOk(after.identities[n], n, after.syncs)
    {
      if n != name {
        assert IdentityOk(db.identities[n], n, db.syncs);
      }
    }
  }

  lemma InsertKeepsValid(db: Db, req: CreateRequest, generation: nat, supersedes: Option<SyncId>)
    requires Valid(db) && req.lead in db.lifecycles && generation >= 1
    requires ExtendsChain(db.syncs, NewCreate(req, generation, supersedes))
    ensures Valid(InsertCreate(db, req, generation, supersedes).db)
    ensures DbEvolves(db, InsertCreate(db, req, generation, supersedes).db)
  {
    var r := InsertCreate(db, req, generation, supersedes);
    if r.Frozen? {
      var t := NewCreate(req, generation, supersedes);
      assert Covered(r.db) && Pointing(r.db) && IdentitiesEvolve(db.identities, r.db.identities) by {
        InsertKeepsIdentities(db, req, generation, supersedes);
      }
      AppendKeepsValid(db, t, r.db);
    }
  }

  lemma AppendKeepsValid(db: Db, t: Sync, after: Db)
    requires Valid(db) && RecordOk(t) && t.lead in db.lifecycles && t.status != Succeeded
    requires t.op == Create ==> ExtendsChain(db.syncs, t)
    requires t.op == Update ==> ExtendsUpdates(db.syncs, t)
    requires after.syncs == db.syncs + [t] && after.discards == db.discards && after.lifecycles == db.lifecycles
    requires Covered(after) && Pointing(after) && IdentitiesEvolve(db.identities, after.identities)
    ensures Valid(after) && DbEvolves(db, after)
  {
    assert Superseded(after.syncs) && Linked(after.syncs) by { AppendKeepsGenerations(db.syncs, t); }
    assert Anchored(after.syncs) && UpdatesExclusive(after.syncs) by { AppendKeepsUpdates(db.syncs, t); }
    assert after.discards == db.(syncs := db.syncs + [t]).discards;
    AppendKeepsDiscards(db, t);
    assert db.(syncs := after.syncs, identities := after.identities) == after;
    assert db.(syncs := after.syncs, discards := after.discards) == db.(syncs := db.syncs + [t]);
    AssembleValid(db, after);
  }

  lemma ReopenKeepsValid(db: Db, id: SyncId)
    requires Valid(db) && id < |db.syncs| && IsStoppable(db.syncs[id])
    ensures Valid(WithSync(db, id, Reopened(db.syncs[id])))
    ensures DbEvolves(db, WithSync(db, id, Reopened(db.syncs[id])))
  {
    assert RecordOk(db.syncs[id]);
    QuietRewriteKeepsValid(db, id, Reopened(db.syncs[id]));
  }

  /** The latest create, once abandoned, can be followed by exactly the next generation. */
  lemma AbandonedCanBeSuperseded(syncs: seq<Sync>, lead: LeadId, t: Sync)
    requires Superseded(syncs) && t.lead == lead
    requires LatestCreate(syncs, lead).Some?
    requires syncs[LatestCreate(syncs, lead).value].status == Abandoned
    requires syncs[LatestCreate(syncs, lead).value].generation >= 1
    requires t.generation == syncs[LatestCreate(syncs, lead).value].generation + 1
    requires t.supersedes == LatestCreate(syncs, lead)
    ensures ExtendsChain(syncs, t)
  {
    forall i | 0 <= i < |syncs| && IsCreateOf(syncs[i], lead)
      ensures syncs[i].generation < t.generation && syncs[i].status == Abandoned
    {
      LatestDecides(syncs, lead, i);
    }
  }

  lemma FreezeCreateKeepsValid(db: Db, req: CreateRequest)
    requires Valid(db)
    ensures Valid(FreezeCreate(db, req).db) && DbEvolves(db, FreezeCreate(db, req).db)
  {
    var r := FreezeCreate(db, req);
    var latest := LatestCreate(db.syncs, req.lead);
    if r == NotFrozen(db, NotSubmitted) || r == NotFrozen(db, StatusOutcome(FailedPendingReview)) {
    } else if req.crmUser == None {
      MappingMissingKeepsValid(db, req.lead, req.message, req.payload, req.snapshotHash, Create);
    } else if latest == None {
      if !req.resubmitsAbandoned {
        InsertKeepsValid(db, req, 1, None);
      }
    } else {
      FollowingFreezeKeepsValid(db, req);
    }
  }

  /** What freezing can do to a lead that already has a create. */
  lemma FollowingFreezeCases(db: Db, req: CreateRequest)
    requires LatestCreate(db.syncs, req.lead).Some? && req.crmUser.Some?
    requires db.syncs[LatestCreate(db.syncs, req.lead).value].generation >= 1
    ensures var latest := LatestCreate(db.syncs, req.lead);
            var existing := db.syncs[latest.value];
            var after := FreezeCreate(db, req).db;
            || after == db
            || (IsStoppable(existing) && after == WithSync(db, latest.value, Reopened(existing)))
            || (existing.status == Abandoned && req.lead in db.lifecycles
                && after == InsertCreate(db, req, existing.generation + 1, latest).db)
  {
  }

  lemma FollowingFreezeKeepsValid(db: Db, req: CreateRequest)
    requires Valid(db) && LatestCreate(db.syncs, req.lead).Some? && req.crmUser.Some?
    ensures Valid(FreezeCreate(db, req).db) && DbEvolves(db, FreezeCreate(db, req).db)
  {
    var latest := LatestCreate(db.syncs, req.lead);
    var existing := db.syncs[latest.value];
    assert existing.generation >= 1 by { assert RecordOk(existing); }
    FollowingFreezeCases(db, req);
    if FreezeCreate(db, req).db != db {
      if IsStoppable(existing) {
        ReopenKeepsValid(db, latest.value);
      } else {
        NextGenerationKeepsValid(db, req);
      }
    }
  }

  lemma NextGenerationKeepsValid(db: Db, req: CreateRequest)
    requires Valid(db) && LatestCreate(db.syncs, req.lead).Some? && req.lead in db.lifecycles
    requires db.syncs[LatestCreate(db.syncs, req.lead).value].status == Abandoned
    ensures var latest := LatestCreate(db.syncs, req.lead);
            var after := InsertCreate(db, req, db.syncs[latest.value].generation + 1, latest).db;
            Valid(after) && DbEvolves(db, after)
  {
    var latest := LatestCreate(db.syncs, req.lead);
    var existing := db.syncs[latest.value];
    assert RecordOk(existing);
    var t := NewCreate(req, existing.generation + 1, latest);
    assert ExtendsChain(db.syncs, t) by { AbandonedCanBeSuperseded(db.syncs, req.lead, t); }
    InsertKeepsValid(db, req, existing.generation + 1, latest);
  }

  // ---------- freezing an update ----------

  /** Any succeeded record of a lead vouches for the company name of a succeeded create of that lead. */
  lemma SucceededHasAnchor(db: Db, base: SyncId)
    requires Records(db) && Anchored(db.syncs) && base < |db.syncs| && db.syncs[base].status == Succeeded
    ensures HasAnchor(db.syncs, db.syncs[base].lead, db.syncs[base].payload.name)
  {
    assert RecordOk(db.syncs[base]);
    if db.syncs[base].op == Create {
      assert IsAnchor(db.syncs[base], db.syncs[base].lead, db.syncs[base].payload.name);
    }
  }

  lemma NewUpdateExtends(db: Db, req: UpdateRequest)
    requires Records(db) && Anchored(db.syncs)
    requires req.base < |db.syncs| && db.syncs[req.base].status == Succeeded && db.syncs[req.base].lead == req.lead
    requires req.payload.name == db.syncs[req.base].payload.name
    requires UnfinishedUpdate(db.syncs, req.lead, None).None?
    requires FindUpdate(db.syncs, req.lead, req.snapshotHash).None?
    ensures ExtendsUpdates(db.syncs, NewUpdate(db, req))
  {
    SucceededHasAnchor(db, req.base);
    var t := NewUpdate(db, req);
    forall i | 0 <= i < |db.syncs| && SameLeadUpdates(db.syncs[i], t)
      ensures !IsUnfinishedUpdate(db.syncs[i]) && db.syncs[i].snapshotHash != t.snapshotHash
    {
      assert !SameSnapshotUpdate(db.syncs[i], req.lead, req.snapshotHash);
    }
  }

  lemma InsertUpdateKeepsValid(db: Db, t: Sync)
    requires Valid(db) && t.op == Update && RecordOk(t) && t.lead in db.lifecycles && t.status == Pending
    requires ExtendsUpdates(db.syncs, t)
    ensures Valid(db.(syncs := db.syncs + [t])) && DbEvolves(db, db.(syncs := db.syncs + [t]))
  {
    AppendKeepsIdentities(db, t);
    AppendKeepsValid(db, t, db.(syncs := db.syncs + [t]));
  }

  lemma FreezeUpdateKeepsValid(db: Db, req: UpdateRequest)
    requires Valid(db)
    requires req.base < |db.syncs| && db.syncs[req.base].status == Succeeded && db.syncs[req.base].lead == req.lead
    ensures Valid(FreezeUpdate(db, req).db) && DbEvolves(db, FreezeUpdate(db, req).db)
  {
    var r := FreezeUpdate(db, req);
    if r.Frozen? && r.sync == |db.syncs| {
      var t := NewUpdate(db, req);
      assert r.db == db.(syncs := db.syncs + [t]);
      assert ExtendsUpdates(db.syncs, t) by { NewUpdateExtends(db, req); }
      InsertUpdateKeepsValid(db, t);
    } else if r.NotFrozen? && r.outcome == MappingMissing {
      assert r.db == RecordMappingMissing(db, req.lead, req.message, req.payload, req.snapshotHash, Update);
      MappingMissingKeepsValid(db, req.lead, req.message, req.payload, req.snapshotHash, Update);
    } else {
      var lifecycles := r.db.lifecycles;
      assert r.db == db.(lifecycles := lifecycles);
      LifecycleKeepsValid(db, db.(lifecycles := lifecycles));
    }
  }
}
