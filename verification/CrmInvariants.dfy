/**
  The table invariant of the CRM submission protocol, and the relation every transaction keeps between
  the tables before and after it.
*/
module CrmInvariants {
  import opened Common
  import opened Failures
  import opened CrmRecords

  // ---------- one record ----------

  /** A create that may still be sent carries no CRM identity of its own yet. */
  predicate CarriesNoCrmIdentity(s: Sync) {
    s.crmLead == None && s.crmOwner == None
  }

  predicate RecordOk(s: Sync) {
    && (s.op == Create ==>
        && s.generation >= 1 && s.key == CreateKey(s.lead, s.generation)
        && (s.status in {Pending, Retrying, Processing} || IsUnknownCheckpoint(s) ==> CarriesNoCrmIdentity(s)))
    && (s.op == Update ==>
        && s.key == UpdateKey(s.lead, s.snapshotHash) && s.supersedes == None
        && s.status !in {Retrying, AwaitingDuplicateConfirmation, Abandoned})
    && (s.op == Validation ==>
        && s.key.ValidationKey? && s.supersedes == None && IsFinal(s)
        && s.status == FailedPendingReview && s.attempts == 0)
    && (s.status in {Pending, AwaitingDuplicateConfirmation, Abandoned} ==> s.attempts == 0)
    && (s.status in {Processing, Retrying, Succeeded} ==> s.attempts >= 1)
    && (s.status == Processing ==> s.startedAt.Some? && s.leaseExpiresAt.Some?)
  }

  ghost predicate Records(db: Db) {
    forall i :: 0 <= i < |db.syncs| ==> RecordOk(db.syncs[i]) && db.syncs[i].lead in db.lifecycles
  }

  // ---------- create generations ----------

  predicate IsCreateOf(s: Sync, lead: LeadId) {
    s.op == Create && s.lead == lead
  }

  /** Of two creates of one lead the earlier has the smaller generation and is abandoned. */
  ghost predicate Superseded(syncs: seq<Sync>) {
    forall i, j :: 0 <= i < j < |syncs| && IsCreateOf(syncs[i], syncs[j].lead) && syncs[j].op == Create ==>
      syncs[i].generation < syncs[j].generation && syncs[i].status == Abandoned
  }

  /** A generation above the first names its direct predecessor. */
  predicate LinkOk(syncs: seq<Sync>, s: Sync) {
    if s.generation <= 1 then s.supersedes == None
    else
      && s.supersedes.Some? && s.supersedes.value < |syncs|
      && IsCreateOf(syncs[s.supersedes.value], s.lead)
      && syncs[s.supersedes.value].generation + 1 == s.generation
  }

  predicate LinkedAt(syncs: seq<Sync>, j: nat)
    requires j < |syncs|
  {
    syncs[j].op == Create ==> LinkOk(syncs[..j], syncs[j])
  }

  ghost predicate Linked(syncs: seq<Sync>) {
    forall j :: 0 <= j < |syncs| ==> LinkedAt(syncs, j)
  }

  // ---------- updates ----------

  predicate IsAnchor(s: Sync, lead: LeadId, name: string) {
    s.op == Create && s.status == Succeeded && s.lead == lead && s.payload.name == name
  }

  ghost predicate HasAnchor(syncs: seq<Sync>, lead: LeadId, name: string) {
    exists i :: 0 <= i < |syncs| && IsAnchor(syncs[i], lead, name)
  }

  /** An update exists only beside a succeeded create of its lead that carries the same company name. */
  ghost predicate Anchored(syncs: seq<Sync>) {
    forall j :: 0 <= j < |syncs| && syncs[j].op == Update ==> HasAnchor(syncs, syncs[j].lead, syncs[j].payload.name)
  }

  predicate SameLeadUpdates(s: Sync, t: Sync) {
    s.op == Update && t.op == Update && s.lead == t.lead
  }

  /** At most one unfinished update a lead, and at most one update a snapshot. */
  ghost predicate UpdatesExclusive(syncs: seq<Sync>) {
    forall i, j :: 0 <= i < j < |syncs| && SameLeadUpdates(syncs[i], syncs[j]) ==>
      && !(IsUnfinishedUpdate(syncs[i]) && IsUnfinishedUpdate(syncs[j]))
      && syncs[i].snapshotHash != syncs[j].snapshotHash
  }

  // ---------- company reservations ----------

  predicate Covers(d: Identity, id: SyncId, lead: LeadId) {
    d.state == Active || (d.state == Reserving && d.creatingSync == Some(id) && d.creatingLead == Some(lead))
  }

  /** The company name of every unsettled create is active, or reserved for exactly that record. */
  ghost predicate Covered(db: Db) {
    forall i :: 0 <= i < |db.syncs| && IsUnsettledCreate(db.syncs[i]) ==>
      db.syncs[i].payload.name in db.identities
      && Covers(db.identities[db.syncs[i].payload.name], i, db.syncs[i].lead)
  }

  /** What an identity row says about the record that created it. */
  predicate IdentityOk(d: Identity, name: string, syncs: seq<Sync>) {
    && (d.creatingSync.None? ==> d.state != Reserving)
    && (d.creatingSync.Some? ==>
        && d.creatingSync.value < |syncs|
        && var s := syncs[d.creatingSync.value];
        && s.op == Create && s.payload.name == name
        && match d.state
           case Reserving => IsUnsettledCreate(s) && d.creatingLead == Some(s.lead)
           case Active => s.status == Succeeded && d.crmLead.Some? && s.crmLead == d.crmLead && s.crmOwner == d.crmOwner
           case IdentityFailed => s.status == FailedPendingReview && s.category != Some(Unknown))
  }

  ghost predicate Pointing(db: Db) {
    forall n :: n in db.identities ==> IdentityOk(db.identities[n], n, db.syncs)
  }

  // ---------- discards ----------

  predicate LiveDiscard(db: Db, lead: LeadId) {
    lead in db.discards && db.discards[lead] in {DiscardPending, DiscardEffective}
  }

  /** A lead with any CRM success has no pending or effective discard. */
  ghost predicate DiscardsYield(db: Db) {
    forall i :: 0 <= i < |db.syncs| && db.syncs[i].status == Succeeded ==> !LiveDiscard(db, db.syncs[i].lead)
  }

  predicate KeepsWaiting(s: Sync, lead: LeadId) {
    IsCreateOf(s, lead) && (IsUnsettledCreate(s) || s.status == Abandoned)
  }

  /** A pending discard has a create that is unsettled or was abandoned. */
  ghost predicate DiscardsWait(db: Db) {
    forall l :: l in db.discards && db.discards[l] == DiscardPending ==>
      exists i :: 0 <= i < |db.syncs| && KeepsWaiting(db.syncs[i], l)
  }

  ghost predicate Valid(db: Db) {
    && Records(db)
    && Superseded(db.syncs) && Linked(db.syncs)
    && Anchored(db.syncs) && UpdatesExclusive(db.syncs)
    && Covered(db) && Pointing(db)
    && DiscardsYield(db) && DiscardsWait(db)
  }

  // ---------- the step relation ----------

  predicate Evolves(s: Sync, t: Sync) {
    && SameFrozenFacts(s, t)
    && s.attempts <= t.attempts
    && (IsFinal(s) ==> t == s)
    && (IsUnfinishedUpdate(t) ==> IsUnfinishedUpdate(s))
    && (IsUnsettledCreate(t) ==> IsUnsettledCreate(s))
    && (t.status == Processing && t.attempts == s.attempts ==> t == s)
  }

  ghost predicate SyncsEvolve(a: seq<Sync>, b: seq<Sync>) {
    |a| <= |b| && forall i :: 0 <= i < |a| ==> Evolves(a[i], b[i])
  }

  /** Active and failed company identities are absorbing. */
  ghost predicate IdentitiesEvolve(a: map<string, Identity>, b: map<string, Identity>) {
    forall n :: n in a && a[n].state != Reserving ==> n in b && b[n] == a[n]
  }

  /** A discard request is never withdrawn, and one that lost to CRM stays lost. */
  ghost predicate DiscardsEvolve(a: map<LeadId, DiscardStatus>, b: map<LeadId, DiscardStatus>) {
    forall l :: l in a ==> l in b && (a[l] == DiscardNotEffective ==> b[l] == DiscardNotEffective)
  }

  ghost predicate DbEvolves(a: Db, b: Db) {
    && SyncsEvolve(a.syncs, b.syncs)
    && IdentitiesEvolve(a.identities, b.identities)
    && DiscardsEvolve(a.discards, b.discards)
    && a.lifecycles.Keys <= b.lifecycles.Keys
  }

  lemma DbEvolvesTransitive(a: Db, b: Db, c: Db)
    requires DbEvolves(a, b) && DbEvolves(b, c)
    ensures DbEvolves(a, c)
  {
    forall i | 0 <= i < |a.syncs|
      ensures Evolves(a.syncs[i], c.syncs[i])
    {
      assert Evolves(a.syncs[i], b.syncs[i]) && Evolves(b.syncs[i], c.syncs[i]);
    }
  }
}
