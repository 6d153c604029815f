/** The lead outbox dispatcher's scan (workers/tasks.py:1079-1277). */
module LeadOutbox {
  import opened Common

  type Seller = nat
  type EventId = nat

  datatype EventStatus =
    | Pending | Retrying | Processing
    | Succeeded | Ignored | Unauthorized | Invalid | FailedPendingReview | BatchPending

  /** COMPLETED_CHECKPOINT_STATUSES (app/leads/service.py:81-90). */
  predicate IsCompleted(st: EventStatus) {
    st in {Succeeded, Ignored, Unauthorized, Invalid, FailedPendingReview, BatchPending}
  }

  datatype Event = Event(seller: Seller, sequence: nat, createdAt: int, status: EventStatus, startedAt: Option<int>)

  datatype DispatchClaim = DispatchClaim(event: EventId, claimedAt: int, recoversExpiredLease: bool)

  /** `_processing_lease_expired` */
  predicate LeaseExpired(e: Event, now: int, lease: nat) {
    e.status == Processing && e.startedAt.Some? && e.startedAt.value + lease < now
  }

  predicate Precedes(events: seq<Event>, p: EventId, id: EventId)
    requires p < |events| && id < |events|
  {
    events[p].seller == events[id].seller && events[p].sequence < events[id].sequence
  }

  /** No earlier event of the same salesperson is unfinished. */
  predicate IsQueueHead(events: seq<Event>, id: EventId)
    requires id < |events|
  {
    forall p :: 0 <= p < |events| && Precedes(events, p, id) ==> IsCompleted(events[p].status)
  }

  predicate IsEligible(events: seq<Event>, id: EventId, now: int, lease: nat)
    requires id < |events|
  {
    (events[id].status in {Pending, Retrying} || LeaseExpired(events[id], now, lease)) && IsQueueHead(events, id)
  }

  /** Columns of an event that never change. */
  predicate SameEvent(a: Event, b: Event) {
    a.seller == b.seller && a.sequence == b.sequence && a.createdAt == b.createdAt
  }

  /** Sequence numbers are unique within a salesperson. */
  ghost predicate UniqueSequences(events: seq<Event>) {
    forall i, j :: 0 <= i < j < |events| && events[i].seller == events[j].seller ==>
      events[i].sequence != events[j].sequence
  }

  function Claimed(e: Event, now: int): Event {
    e.(status := Processing, startedAt := Some(now))
  }

  /** A lease that still counts against the capacity of the worker pool. */
  predicate IsFresh(e: Event, now: int, lease: nat) {
    e.status == Processing && e.startedAt.Some? && e.startedAt.value >= now - lease
  }

  function FreshCount(events: seq<Event>, now: int, lease: nat): nat {
    if events == [] then 0
    else FreshCount(events[..|events| - 1], now, lease) + (if IsFresh(events[|events| - 1], now, lease) then 1 else 0)
  }

  function Fresh(e: Event, now: int, lease: nat): nat {
    if IsFresh(e, now, lease) then 1 else 0
  }

  lemma {:induction false} FreshCountAfterRewrite(events: seq<Event>, id: EventId, e: Event, now: int, lease: nat)
    requires id < |events|
    ensures FreshCount(events[id := e], now, lease) + Fresh(events[id], now, lease)
            == FreshCount(events, now, lease) + Fresh(e, now, lease)
  {
    var after := events[id := e];
    var n := |events| - 1;
    if id == n {
      assert after[..n] == events[..n];
    } else {
      FreshCountAfterRewrite(events[..n], id, e, now, lease);
      assert after[..n] == events[..n][id := e];
    }
  }

  lemma FreshCountAfterClaim(events: seq<Event>, id: EventId, now: int, lease: nat)
    requires id < |events| && !IsFresh(events[id], now, lease)
    ensures FreshCount(events[id := Claimed(events[id], now)], now, lease) == FreshCount(events, now, lease) + 1
  {
    FreshCountAfterRewrite(events, id, Claimed(events[id], now), now, lease);
  }

  predicate CanTake(events: seq<Event>, id: EventId, claimedAt: int) {
    id < |events| && events[id].status == Processing && events[id].startedAt == Some(claimedAt)
  }

  function AfterTake(events: seq<Event>, id: EventId, now: int): seq<Event>
    requires id < |events|
  {
    events[id := events[id].(startedAt := Some(now))]
  }

  /**
    Taking a claim over leaves the number of fresh leases as it was, except that an expired lease becomes fresh
    again. So the cap, if it held before, holds after if and only if the claim had not expired or a slot was free.
  */
  lemma TakeRefreshesExpiredLease(events: seq<Event>, id: EventId, claimedAt: int, now: int, lease: nat, maxInFlight: int)
    requires CanTake(events, id, claimedAt) && FreshCount(events, now, lease) <= maxInFlight
    ensures var before, after := FreshCount(events, now, lease), FreshCount(AfterTake(events, id, now), now, lease);
            && after == before + (if claimedAt < now - lease then 1 else 0)
            && (after <= maxInFlight <==> claimedAt >= now - lease || before < maxInFlight)
  {
    FreshCountAfterRewrite(events, id, events[id].(startedAt := Some(now)), now, lease);
  }

  // ---------- the candidate query ----------

  /** ORDER BY created_at, id */
  predicate Before(events: seq<Event>, i: EventId, j: EventId)
    requires i < |events| && j < |events|
  {
    events[i].createdAt < events[j].createdAt || (events[i].createdAt == events[j].createdAt && i < j)
  }

  ghost predicate IdsOf(events: seq<Event>, ids: seq<EventId>) {
    forall k :: 0 <= k < |ids| ==> ids[k] < |events|
  }

  ghost predicate Ordered(events: seq<Event>, ids: seq<EventId>) {
    && IdsOf(events, ids)
    && forall a, b :: 0 <= a < b < |ids| ==> Before(events, ids[a], ids[b])
  }

  function InsertId(events: seq<Event>, ids: seq<EventId>, id: EventId): (r: seq<EventId>)
    requires id < |events| && Ordered(events, ids) && id !in ids
    ensures Ordered(events, r) && forall x :: x in r <==> x == id || x in ids
  {
    if ids == [] then [id]
    else if Before(events, id, ids[0]) then [id] + ids
    else
      var rest := InsertId(events, ids[1..], id);
      assert forall k :: 0 <= k < |rest| ==> Before(events, ids[0], rest[k]) by {
        forall k | 0 <= k < |rest|
          ensures Before(events, ids[0], rest[k])
        {
          assert rest[k] in rest;
        }
      }
      [ids[0]] + rest
  }

  /** The rows the scan query returns, among the first `bound` ids. */
  function Candidates(events: seq<Event>, now: int, lease: nat, bound: nat): (r: seq<EventId>)
    requires bound <= |events|
    ensures Ordered(events, r)
    ensures forall id: EventId :: id in r <==> id < bound && IsEligible(events, id, now, lease)
  {
    if bound == 0 then []
    else
      var rest := Candidates(events, now, lease, bound - 1);
      if IsEligible(events, bound - 1, now, lease) then InsertId(events, rest, bound - 1) else rest
  }

  /** Two queue heads of one salesperson are one event. */
  lemma OneHeadPerSeller(events: seq<Event>, i: EventId, j: EventId)
    requires UniqueSequences(events) && i < |events| && j < |events| && events[i].seller == events[j].seller
    requires IsQueueHead(events, i) && IsQueueHead(events, j)
    requires !IsCompleted(events[i].status) && !IsCompleted(events[j].status)
    ensures i == j
  {
    assert !Precedes(events, i, j) && !Precedes(events, j, i);
  }

  // ---------- the scan ----------

  predicate Claims(claims: seq<DispatchClaim>, id: EventId) {
    exists k :: 0 <= k < |claims| && claims[k].event == id
  }

  /** What a scan does: it starts a lease on the claimed events and touches nothing else. */
  ghost predicate ClaimsExactly(before: seq<Event>, after: seq<Event>, claims: seq<DispatchClaim>, now: int) {
    && |after| == |before|
    && (forall k :: 0 <= k < |claims| ==> claims[k].event < |before| && claims[k].claimedAt == now)
    && forall i :: 0 <= i < |before| ==>
         after[i] == if Claims(claims, i) then Claimed(before[i], now) else before[i]
  }

  /** The claims are eligible heads of different salespersons, none of whom is busy. */
  ghost predicate ClaimsAllowed(
    events: seq<Event>, claims: seq<DispatchClaim>, now: int, lease: nat, busy: set<Seller>)
  {
    && (forall k :: 0 <= k < |claims| ==>
          && claims[k].event < |events| && IsEligible(events, claims[k].event, now, lease)
          && events[claims[k].event].seller !in busy)
    && forall a, b :: 0 <= a < b < |claims| ==>
         events[claims[a].event].seller != events[claims[b].event].seller
  }

  /** Every claim comes earlier in the scan order than `id`. */
  ghost predicate ClaimsPrecede(events: seq<Event>, claims: seq<DispatchClaim>, id: EventId)
    requires id < |events|
  {
    forall k :: 0 <= k < |claims| ==> claims[k].event < |events| && Before(events, claims[k].event, id)
  }

  /** An eligible head left unclaimed is busy, or the scan was full before its turn came. */
  ghost predicate Greedy(
    events: seq<Event>, claims: seq<DispatchClaim>, now: int, lease: nat, busy: set<Seller>, full: bool)
  {
    forall id :: 0 <= id < |events| && IsEligible(events, id, now, lease) && !Claims(claims, id) ==>
      events[id].seller in busy || (full && ClaimsPrecede(events, claims, id))
  }

  ghost predicate FromCandidates(claims: seq<DispatchClaim>, candidates: seq<EventId>, bound: nat)
    requires bound <= |candidates|
  {
    forall k :: 0 <= k < |claims| ==> claims[k].event in candidates[..bound]
  }

  /** Earlier claims of a scan leave the later candidates as eligible as they were. */
  lemma CandidateStaysEligible(
    before: seq<Event>, after: seq<Event>, claims: seq<DispatchClaim>, id: EventId, now: int, lease: nat,
    busy: set<Seller>)
    requires ClaimsExactly(before, after, claims, now) && ClaimsAllowed(before, claims, now, lease, busy)
    requires id < |before| && IsEligible(before, id, now, lease) && !Claims(claims, id)
    ensures after[id] == before[id] && IsEligible(after, id, now, lease)
  {
    forall p | 0 <= p < |after| && Precedes(after, p, id)
      ensures IsCompleted(after[p].status)
    {
      assert Precedes(before, p, id);
    }
  }

  lemma CandidateNotYetClaimed(events: seq<Event>, claims: seq<DispatchClaim>, candidates: seq<EventId>, i: nat)
    requires Ordered(events, candidates) && i < |candidates| && FromCandidates(claims, candidates, i)
    ensures !Claims(claims, candidates[i])
  {
    forall k | 0 <= k < |claims|
      ensures claims[k].event != candidates[i]
    {
      var x :| 0 <= x < i && candidates[x] == claims[k].event;
      assert Before(events, candidates[x], candidates[i]);
    }
  }

  lemma NewClaimIsAllowed(
    events: seq<Event>, claims: seq<DispatchClaim>, c: DispatchClaim, now: int, lease: nat, busy: set<Seller>)
    requires UniqueSequences(events) && ClaimsAllowed(events, claims, now, lease, busy)
    requires c.event < |events| && IsEligible(events, c.event, now, lease) && !Claims(claims, c.event)
    requires events[c.event].seller !in busy
    ensures ClaimsAllowed(events, claims + [c], now, lease, busy)
  {
    forall k | 0 <= k < |claims|
      ensures events[claims[k].event].seller != events[c.event].seller
    {
      if events[claims[k].event].seller == events[c.event].seller {
        OneHeadPerSeller(events, claims[k].event, c.event);
        assert false;
      }
    }
  }

  lemma NewClaimIsExact(
    before: seq<Event>, after: seq<Event>, claims: seq<DispatchClaim>, c: DispatchClaim, now: int)
    requires ClaimsExactly(before, after, claims, now) && c.event < |before| && c.claimedAt == now
    requires after[c.event] == before[c.event]
    ensures ClaimsExactly(before, after[c.event := Claimed(before[c.event], now)], claims + [c], now)
  {
    forall i | 0 <= i < |before|
      ensures Claims(claims + [c], i) <==> Claims(claims, i) || i == c.event
    {
      if Claims(claims, i) {
        var k :| 0 <= k < |claims| && claims[k].event == i;
        assert (claims + [c])[k].event == i;
      }
      if i == c.event {
        assert (claims + [c])[|claims|].event == i;
      }
    }
  }

  /** Every candidate among the first `bound` is claimed or busy. */
  ghost predicate Visited(
    events: seq<Event>, claims: seq<DispatchClaim>, candidates: seq<EventId>, bound: nat, busy: set<Seller>)
    requires bound <= |candidates| && IdsOf(events, candidates)
  {
    forall x :: 0 <= x < bound ==> events[candidates[x]].seller in busy || Claims(claims, candidates[x])
  }

  lemma VisitedIsGreedy(
    events: seq<Event>, claims: seq<DispatchClaim>, candidates: seq<EventId>, bound: nat, now: int, lease: nat,
    busy: set<Seller>, full: bool)
    requires Ordered(events, candidates) && bound <= |candidates|
    requires forall id :: 0 <= id < |events| && IsEligible(events, id, now, lease) ==> id in candidates
    requires Visited(events, claims, candidates, bound, busy) && FromCandidates(claims, candidates, bound)
    requires bound < |candidates| ==> full
    ensures Greedy(events, claims, now, lease, busy, full)
  {
    forall id | 0 <= id < |events| && IsEligible(events, id, now, lease) && !Claims(claims, id)
                && events[id].seller !in busy
      ensures full && ClaimsPrecede(events, claims, id)
    {
      var x :| 0 <= x < |candidates| && candidates[x] == id;
      assert bound <= x;
      forall k | 0 <= k < |claims|
        ensures Before(events, claims[k].event, id)
      {
        var y :| 0 <= y < bound && candidates[y] == claims[k].event;
        assert Before(events, candidates[y], candidates[x]);
      }
    }
  }

  lemma MoreClaimsMoreVisited(
    events: seq<Event>, claims: seq<DispatchClaim>, c: DispatchClaim, candidates: seq<EventId>, i: nat,
    busy: set<Seller>)
    requires IdsOf(events, candidates) && i < |candidates| && Visited(events, claims, candidates, i, busy)
    requires FromCandidates(claims, candidates, i) && c.event == candidates[i]
    ensures Visited(events, claims + [c], candidates, i + 1, busy)
    ensures FromCandidates(claims + [c], candidates, i + 1)
  {
    forall x | 0 <= x < i + 1
      ensures events[candidates[x]].seller in busy || Claims(claims + [c], candidates[x])
    {
      if x == i {
        assert (claims + [c])[|claims|].event == candidates[x];
      } else if Claims(claims, candidates[x]) {
        var k :| 0 <= k < |claims| && claims[k].event == candidates[x];
        assert (claims + [c])[k].event == candidates[x];
      }
    }
    forall k | 0 <= k < |claims + [c]|
      ensures (claims + [c])[k].event in candidates[..i + 1]
    {
      if k < |claims| {
        assert claims[k].event in candidates[..i];
      } else {
        assert candidates[..i + 1][i] == c.event;
      }
    }
  }

  /** The answer to one claim; an unregistered salesperson raises an error. */
  datatype ClaimReply = Granted(claim: DispatchClaim) | NotGranted | MissingRegistration(seller: Seller)

  datatype ScanReply = Dispatched | BadLimit | Aborted(seller: Seller)

  class LeadOutboxDispatcher {
    var events: seq<Event>

    constructor (events: seq<Event>)
      ensures this.events == events
    {
      this.events := events;
    }

    /**
      `_claim_lead_outbox_event`; `busy` says that a live worker holds the salesperson's lock, `registry` are the
      salespersons with an authorisation row.
    */
    method ClaimEvent(id: EventId, now: int, lease: nat, busy: bool, registry: set<Seller>) returns (reply: ClaimReply)
      modifies this
      ensures reply.MissingRegistration? <==> id < |old(events)| && !busy && old(events)[id].seller !in registry
      ensures reply.MissingRegistration? ==> reply.seller == old(events)[id].seller
      ensures reply.Granted? <==>
        id < |old(events)| && !busy && old(events)[id].seller in registry && IsEligible(old(events), id, now, lease)
      ensures reply.Granted? ==>
        && reply.claim == DispatchClaim(id, now, LeaseExpired(old(events)[id], now, lease))
        && events == old(events)[id := Claimed(old(events)[id], now)]
      ensures !reply.Granted? ==> events == old(events)
    {
      if id >= |events| {
        return NotGranted;
      }
      if busy {
        return NotGranted;
      }
      if events[id].seller !in registry {
        return MissingRegistration(events[id].seller);
      }
      var event := events[id];
      var expired := LeaseExpired(event, now, lease);
      if event.status !in {Pending, Retrying} && !expired {
        return NotGranted;
      }
      if !IsQueueHead(events, id) {
        return NotGranted;
      }
      event := event.(status := Processing);
      event := event.(startedAt := Some(now));
      events := events[id := event];
      reply := Granted(DispatchClaim(id, now, expired));
    }

    /** `_take_lead_outbox_claim`: a compare-and-set on the claim time. */
    method TakeClaim(id: EventId, claimedAt: int, now: int) returns (taken: bool)
      modifies this
      ensures taken <==> CanTake(old(events), id, claimedAt)
      ensures events == if taken then AfterTake(old(events), id, now) else old(events)
    {
      taken := false;
      if id < |events| && events[id].status == Processing && events[id].startedAt == Some(claimedAt) {
        events := events[id := events[id].(startedAt := Some(now))];
        taken := true;
      }
    }

    /**
      `claim_dispatchable_lead_outbox_events`. A salesperson has at most one candidate, so its lock is tried at most
      once in a scan: `busy` are those whose lock was found taken at that moment. The number of fresh leases grows by
      exactly the number of claims, so a scan never pushes it over the cap. An unregistered salesperson aborts the
      scan; the claims made so far stay.
    */
    method ClaimDispatchable(now: int, lease: nat, maxInFlight: int, busy: set<Seller>, registry: set<Seller>)
      returns (claims: seq<DispatchClaim>, reply: ScanReply)
      requires UniqueSequences(events)
      modifies this
      ensures reply.BadLimit? <==> maxInFlight < 1
      ensures reply.BadLimit? ==> claims == []
      ensures reply.Aborted? ==> reply.seller !in registry && reply.seller !in busy
      ensures reply.Aborted? ==>
        exists id :: 0 <= id < |old(events)| && old(events)[id].seller == reply.seller &&
                     IsEligible(old(events), id, now, lease)
      ensures ClaimsExactly(old(events), events, claims, now)
      ensures ClaimsAllowed(old(events), claims, now, lease, busy)
      ensures FreshCount(events, now, lease) == FreshCount(old(events), now, lease) + |claims|
      ensures FreshCount(old(events), now, lease) <= maxInFlight ==> FreshCount(events, now, lease) <= maxInFlight
      ensures reply.Dispatched? ==>
        Greedy(old(events), claims, now, lease, busy, FreshCount(events, now, lease) >= maxInFlight)
    {
      claims, reply := [], Dispatched;
      if maxInFlight < 1 {
        return [], BadLimit;
      }
      var slots := maxInFlight - FreshCount(events, now, lease);
      if slots <= 0 {
        return;
      }
      var candidates := Candidates(events, now, lease, |events|);
      ghost var before := events;
      ghost var visited := 0;
      for i := 0 to |candidates|
        invariant |claims| < slots && visited == i && reply.Dispatched?
        invariant ClaimsExactly(before, events, claims, now) && ClaimsAllowed(before, claims, now, lease, busy)
        invariant FromCandidates(claims, candidates, i) && Visited(before, claims, candidates, i, busy)
        invariant FreshCount(events, now, lease) == FreshCount(before, now, lease) + |claims|
      {
        var id := candidates[i];
        assert id in candidates;
        CandidateNotYetClaimed(before, claims, candidates, i);
        CandidateStaysEligible(before, events, claims, id, now, lease, busy);
        ghost var mid := events;
        var claim := ClaimEvent(id, now, lease, events[id].seller in busy, registry);
        if claim.MissingRegistration? {
          assert before[id].seller == claim.seller;
          return claims, Aborted(claim.seller);
        }
        visited := i + 1;
        if claim.Granted? {
          FreshCountAfterClaim(mid, id, now, lease);
          NewClaimIsExact(before, mid, claims, claim.claim, now);
          NewClaimIsAllowed(before, claims, claim.claim, now, lease, busy);
          MoreClaimsMoreVisited(before, claims, claim.claim, candidates, i, busy);
          claims := claims + [claim.claim];
          if |claims| >= slots {
            break;
          }
        }
      }
      VisitedIsGreedy(before, claims, candidates, visited, now, lease, busy, FreshCount(events, now, lease) >= maxInFlight);
    }
  }

  // ---------- what the scan means by waiting, lease and order ----------

  /** An event is completed exactly when no worker is or will be needed for it. */
  lemma CompletedIff(st: EventStatus)
    ensures IsCompleted(st) <==> st !in {Pending, Retrying, Processing}
  {
  }

  /** A lease is either fresh or expired; it expires once more than `lease` has passed. */
  lemma LeaseIsFreshOrExpired(e: Event, now: int, lease: nat)
    requires e.status == Processing && e.startedAt.Some?
    ensures LeaseExpired(e, now, lease) <==> now - e.startedAt.value > lease
    ensures IsFresh(e, now, lease) <==> !LeaseExpired(e, now, lease)
  {
  }

  /** A claim keeps its event from being claimed again for exactly `lease`, if nothing else happens to it. */
  lemma ClaimHoldsForLease(events: seq<Event>, id: EventId, now: int, lease: nat, t: int)
    requires id < |events| && IsEligible(events, id, now, lease)
    ensures IsEligible(events[id := Claimed(events[id], now)], id, t, lease) <==> now + lease < t
  {
    var after := events[id := Claimed(events[id], now)];
    assert forall p :: 0 <= p < |after| && Precedes(after, p, id) ==> Precedes(events, p, id);
  }

  /** When a scan has to leave events for lack of slots, it has served the ones received earlier. */
  lemma OldestFirst(
    events: seq<Event>, claims: seq<DispatchClaim>, now: int, lease: nat, busy: set<Seller>, full: bool, id: EventId,
    k: nat)
    requires Greedy(events, claims, now, lease, busy, full) && k < |claims|
    requires id < |events| && IsEligible(events, id, now, lease) && !Claims(claims, id) && events[id].seller !in busy
    ensures full && claims[k].event < |events| && events[claims[k].event].createdAt <= events[id].createdAt
  {
  }
}
