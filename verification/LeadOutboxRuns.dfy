/**
  The dispatcher, its workers and the message queue as a transition system: scans interleave with redelivered
  tasks, crashes, lock losses, lease recovery, new messages and the batch writer, which settles events without the
  salesperson's lock (workers/tasks.py:639-1277, app/leads/service.py:4064-4109).
*/
module LeadOutboxRuns {
  import opened Common
  import opened LeadOutbox

  /** What a Celery task carries: the event and the claim time that serves as its token. */
  datatype Ticket = Ticket(event: EventId, token: int)

  /** A worker that holds a salesperson's session lock: before and after it took over its claim. */
  datatype Holder = Acquired(ticket: Ticket) | Working(event: EventId)

  /** A scan in progress: its clock reading, the slots it has left and the candidates it has not tried yet. */
  datatype Scan = Scan(now: int, lease: nat, slots: nat, rest: seq<EventId>)

  datatype World = World(
    events: seq<Event>,
    clock: int,
    scan: Option<Scan>,
    tickets: set<Ticket>,      // issued; Celery may deliver each of them any number of times
    holders: map<Seller, Holder>,
    taken: seq<Ticket>)        // the takeovers that succeeded, in order

  datatype Step =
    | ArriveStep(seller: Seller, sequence: nat, ticks: nat)
    | ScanStartStep(candidates: seq<EventId>, lease: nat, maxInFlight: int, ticks: nat)
    | ScanClaimStep
    | ScanEndStep
    | AcquireStep(ticket: Ticket)
    | TakeStep(seller: Seller, ticks: nat)
    | OutcomeStep(seller: Seller, status: EventStatus, clears: bool)
    | RefreshStep(seller: Seller, ticks: nat)
    | AdvanceStep(seller: Seller, next: EventId, ticks: nat)
    | ReleaseStep(seller: Seller)
    | ReconcileStep(event: EventId, status: EventStatus, ticks: nat)

  /** The clock is read anew, and never twice with the same value. */
  function Tick(w: World, ticks: nat): int {
    w.clock + 1 + ticks
  }

  ghost predicate DistinctIds(ids: seq<EventId>) {
    forall i, j :: 0 <= i < j < |ids| ==> ids[i] != ids[j]
  }

  /** The earliest waiting event after `event` (app/leads/service.py:4552-4576). */
  predicate IsNextWaiting(events: seq<Event>, event: EventId, next: EventId)
    requires event < |events| && next < |events|
  {
    && Precedes(events, event, next) && events[next].status in {Pending, Retrying}
    && forall p :: 0 <= p < |events| && Precedes(events, event, p) && events[p].status in {Pending, Retrying} ==>
         events[next].sequence <= events[p].sequence
  }

  predicate IsWorking(w: World, seller: Seller) {
    seller in w.holders && w.holders[seller].Working? && w.holders[seller].event < |w.events|
  }

  ghost predicate Enabled(w: World, step: Step) {
    match step
    case ArriveStep(seller, sequence, _) =>
      forall i :: 0 <= i < |w.events| && w.events[i].seller == seller ==> w.events[i].sequence < sequence
    case ScanStartStep(candidates, _, _, _) => w.scan.None? && DistinctIds(candidates)
    case ScanClaimStep => w.scan.Some? && w.scan.value.rest != [] && w.scan.value.slots > 0
    case AcquireStep(ticket) =>
      ticket in w.tickets && ticket.event < |w.events| && w.events[ticket.event].seller !in w.holders
    case TakeStep(seller, _) => seller in w.holders && w.holders[seller].Acquired?
    case OutcomeStep(seller, status, _) =>
      IsWorking(w, seller) && !IsCompleted(w.events[w.holders[seller].event].status)
    case RefreshStep(seller, _) => IsWorking(w, seller)
    case AdvanceStep(seller, next, _) =>
      && IsWorking(w, seller) && next < |w.events|
      && IsCompleted(w.events[w.holders[seller].event].status)
      && IsNextWaiting(w.events, w.holders[seller].event, next)
    case ReconcileStep(event, status, _) =>
      event < |w.events| && status in {Processing, Retrying, FailedPendingReview, BatchPending, Succeeded}
    case _ => true
  }

  /** One candidate of the scan, in its own transaction. */
  function ClaimHead(w: World): World
    requires w.scan.Some? && w.scan.value.rest != [] && w.scan.value.slots > 0
  {
    var Scan(now, lease, slots, rest) := w.scan.value;
    var id := rest[0];
    if id < |w.events| && w.events[id].seller !in w.holders && IsEligible(w.events, id, now, lease)
    then w.(events := w.events[id := Claimed(w.events[id], now)], tickets := w.tickets + {Ticket(id, now)},
            scan := Some(Scan(now, lease, slots - 1, rest[1..])))
    else w.(scan := Some(Scan(now, lease, slots, rest[1..])))
  }

  predicate IsLive(w: World, t: Ticket) {
    CanTake(w.events, t.event, t.token)
  }

  /** The event as the batch writer leaves it. */
  function Reconciled(e: Event, status: EventStatus, now: int): Event {
    e.(status := status, startedAt := if status == Processing then Some(now) else None)
  }

  ghost function Apply(w: World, step: Step): World {
    if !Enabled(w, step) then w
    else match step
      case ArriveStep(seller, sequence, ticks) =>
        w.(events := w.events + [Event(seller, sequence, Tick(w, ticks), Pending, None)], clock := Tick(w, ticks))
      case ScanStartStep(candidates, lease, maxInFlight, ticks) =>
        var open_ := maxInFlight - FreshCount(w.events, Tick(w, ticks), lease);
        w.(scan := Some(Scan(Tick(w, ticks), lease, if open_ > 0 then open_ else 0, candidates)),
           clock := Tick(w, ticks))
      case ScanClaimStep => ClaimHead(w)
      case ScanEndStep => w.(scan := None)
      case AcquireStep(ticket) => w.(holders := w.holders[w.events[ticket.event].seller := Acquired(ticket)])
      case TakeStep(seller, ticks) =>
        var t := w.holders[seller].ticket;
        if IsLive(w, t) then
          w.(events := AfterTake(w.events, t.event, Tick(w, ticks)),
             clock := Tick(w, ticks), holders := w.holders[seller := Working(t.event)], taken := w.taken + [t])
        else w.(holders := w.holders - {seller})
      case OutcomeStep(seller, status, clears) =>
        var e := w.holders[seller].event;
        w.(events := w.events[e := w.events[e].(
          status := status,
          startedAt := if clears && status != Processing then None else w.events[e].startedAt)])
      case RefreshStep(seller, ticks) =>
        var e := w.holders[seller].event;
        w.(events := w.events[e := w.events[e].(startedAt := Some(Tick(w, ticks)))], clock := Tick(w, ticks))
      case AdvanceStep(seller, next, ticks) =>
        w.(events := w.events[next := Claimed(w.events[next], Tick(w, ticks))], clock := Tick(w, ticks),
           holders := w.holders[seller := Working(next)])
      case ReleaseStep(seller) => w.(holders := w.holders - {seller})
      case ReconcileStep(event, status, ticks) =>
        w.(events := w.events[event := Reconciled(w.events[event], status, Tick(w, ticks))], clock := Tick(w, ticks))
  }

  ghost function Run(w: World, steps: seq<Step>): World {
    if steps == [] then w else Apply(Run(w, steps[..|steps| - 1]), steps[|steps| - 1])
  }

  // ---------- the queue invariant ----------

  predicate IsUnderway(e: Event) {
    e.status == Processing || IsCompleted(e.status)
  }

  /** Only an event whose predecessors are all completed is processing or completed. */
  ghost predicate Fifo(events: seq<Event>) {
    forall p, id :: 0 <= p < |events| && 0 <= id < |events| && Precedes(events, p, id) && IsUnderway(events[id]) ==>
      IsCompleted(events[p].status)
  }

  /** Everything after `id` in its salesperson's queue is still waiting. */
  predicate LaterWaits(events: seq<Event>, id: EventId)
    requires id < |events|
  {
    forall p :: 0 <= p < |events| && Precedes(events, id, p) ==> !IsUnderway(events[p])
  }

  /** A working holder is on an event of its own salesperson, between the completed and the waiting ones. */
  predicate HolderOk(w: World, s: Seller, h: Holder) {
    h.Working? ==>
      && h.event < |w.events| && w.events[h.event].seller == s
      && IsQueueHead(w.events, h.event) && LaterWaits(w.events, h.event)
  }

  ghost predicate HoldersOk(w: World) {
    forall s :: s in w.holders ==> HolderOk(w, s, w.holders[s])
  }

  ghost predicate QueueOk(w: World) {
    UniqueSequences(w.events) && Fifo(w.events) && HoldersOk(w)
  }

  // ---------- the token invariant ----------

  /** A ticket whose event no longer carries its token. */
  predicate IsDead(w: World, t: Ticket) {
    t.event < |w.events| && w.events[t.event].startedAt != Some(t.token)
  }

  predicate HolderKnown(w: World, s: Seller, h: Holder) {
    match h
    case Acquired(t) => t in w.tickets && t.event < |w.events| && w.events[t.event].seller == s
    case Working(e) => e < |w.events| && w.events[e].seller == s
  }

  ghost predicate TokensOk(w: World) {
    && (forall s :: s in w.holders ==> HolderKnown(w, s, w.holders[s]))
    && (forall t :: t in w.tickets ==> t.event < |w.events| && t.token <= w.clock)
    && (forall k :: 0 <= k < |w.taken| ==> w.taken[k] in w.tickets && IsDead(w, w.taken[k]))
    && (forall i, j :: 0 <= i < j < |w.taken| ==> w.taken[i] != w.taken[j])
    && (w.scan.Some? ==>
        && w.scan.value.now <= w.clock && DistinctIds(w.scan.value.rest)
        && forall k :: 0 <= k < |w.scan.value.rest| ==> Ticket(w.scan.value.rest[k], w.scan.value.now) !in w.tickets)
  }

  ghost predicate WorldOk(w: World) {
    QueueOk(w) && TokensOk(w)
  }

  /** Initially no task is outstanding and no lock is held; the stored events may be in any order-respecting state. */
  ghost predicate Init(w: World) {
    w.scan == None && w.tickets == {} && w.holders == map[] && w.taken == []
    && UniqueSequences(w.events) && Fifo(w.events)
  }

  // ---------- the queue is kept ----------

  lemma UnderwayIsHead(events: seq<Event>, id: EventId)
    requires Fifo(events) && id < |events| && IsUnderway(events[id])
    ensures IsQueueHead(events, id)
  {
  }

  lemma ProcessingMakesLaterWait(events: seq<Event>, id: EventId)
    requires Fifo(events) && id < |events| && events[id].status == Processing
    ensures LaterWaits(events, id)
  {
  }

  /** Exactly the states an event can be put into without breaking the order of the queue. */
  predicate OrderAllows(events: seq<Event>, id: EventId, e: Event)
    requires id < |events|
  {
    (IsUnderway(e) ==> IsQueueHead(events, id)) && (!IsCompleted(e.status) ==> LaterWaits(events, id))
  }

  lemma RewriteKeepsFifoIff(events: seq<Event>, id: EventId, e: Event)
    requires UniqueSequences(events) && Fifo(events) && id < |events| && SameEvent(events[id], e)
    ensures UniqueSequences(events[id := e])
    ensures Fifo(events[id := e]) <==> OrderAllows(events, id, e)
  {
    var after := events[id := e];
    if OrderAllows(events, id, e) {
      forall p, x | 0 <= p < |after| && 0 <= x < |after| && Precedes(after, p, x) && IsUnderway(after[x])
        ensures IsCompleted(after[p].status)
      {
        assert Precedes(events, p, x);
      }
    }
    if Fifo(after) {
      forall p | 0 <= p < |events| && Precedes(events, p, id) && IsUnderway(e)
        ensures IsCompleted(events[p].status)
      {
        assert Precedes(after, p, id);
      }
      forall p | 0 <= p < |events| && Precedes(events, id, p) && !IsCompleted(e.status)
        ensures !IsUnderway(events[p])
      {
        assert Precedes(after, id, p);
      }
    }
  }

  /** What another event may become while a worker is on its own one. */
  predicate HolderAllows(events: seq<Event>, h: Holder, id: EventId, e: Event)
    requires id < |events|
  {
    h.Working? && h.event < |events| ==>
      && (Precedes(events, id, h.event) ==> IsCompleted(e.status))
      && (Precedes(events, h.event, id) ==> !IsUnderway(e))
  }

  lemma HolderAfterRewrite(w: World, id: EventId, e: Event, s: Seller, h: Holder)
    requires id < |w.events| && SameEvent(w.events[id], e) && HolderOk(w, s, h)
    ensures HolderOk(w.(events := w.events[id := e]), s, h) <==> HolderAllows(w.events, h, id, e)
  {
    if h.Working? {
      var after := w.events[id := e];
      assert forall p :: 0 <= p < |after| ==>
          (Precedes(after, p, h.event) <==> Precedes(w.events, p, h.event)) &&
          (Precedes(after, h.event, p) <==> Precedes(w.events, h.event, p));
      assert Precedes(after, id, h.event) <==> Precedes(w.events, id, h.event);
      assert Precedes(after, h.event, id) <==> Precedes(w.events, h.event, id);
    }
  }

  lemma ArriveKeepsQueue(w: World, seller: Seller, sequence: nat, ticks: nat)
    requires QueueOk(w) && Enabled(w, ArriveStep(seller, sequence, ticks))
    ensures QueueOk(Apply(w, ArriveStep(seller, sequence, ticks)))
  {
    var after := Apply(w, ArriveStep(seller, sequence, ticks));
    forall p, x | 0 <= p < |after.events| && 0 <= x < |after.events| && Precedes(after.events, p, x)
                  && IsUnderway(after.events[x])
      ensures IsCompleted(after.events[p].status)
    {
      assert x < |w.events| && p < |w.events|;
      assert Precedes(w.events, p, x);
    }
    forall s | s in after.holders
      ensures HolderOk(after, s, after.holders[s])
    {
      assert HolderOk(w, s, w.holders[s]);
      if after.holders[s].Working? {
        var e := after.holders[s].event;
        forall p | 0 <= p < |after.events| && Precedes(after.events, p, e)
          ensures IsCompleted(after.events[p].status)
        {
          assert p < |w.events|;
          assert Precedes(w.events, p, e);
        }
        forall p | 0 <= p < |after.events| && Precedes(after.events, e, p)
          ensures !IsUnderway(after.events[p])
        {
          if p < |w.events| { assert Precedes(w.events, e, p); }
        }
      }
    }
  }

  /** A claim by the scan: the salesperson's lock is free. */
  lemma ScanClaimKeepsQueue(w: World)
    requires QueueOk(w) && Enabled(w, ScanClaimStep)
    ensures QueueOk(ClaimHead(w))
  {
    var after := ClaimHead(w);
    var id := w.scan.value.rest[0];
    if after.events == w.events {
      FewerHoldersKeepQueue(w, after);
    } else {
      ClaimedHeadFits(w.events, id);
      RewriteKeepsFifoIff(w.events, id, after.events[id]);
      forall s | s in after.holders
        ensures HolderOk(after, s, after.holders[s])
      {
        assert HolderOk(w, s, w.holders[s]);
        HolderAfterRewrite(w, id, after.events[id], s, w.holders[s]);
      }
    }
  }

  /** A claimable queue head is followed only by waiting events. */
  lemma ClaimedHeadFits(events: seq<Event>, id: EventId)
    requires Fifo(events) && id < |events| && !IsCompleted(events[id].status)
    ensures LaterWaits(events, id)
  {
  }

  /** The one holder of a salesperson rewrites its own event. */
  lemma HolderStepKeepsQueue(w: World, seller: Seller, id: EventId, e: Event, after: World)
    requires QueueOk(w) && id < |w.events| && SameEvent(w.events[id], e) && e.seller == seller
    requires IsQueueHead(w.events, id) && LaterWaits(w.events, id)
    requires after.events == w.events[id := e]
    requires after.holders == w.holders[seller := Working(id)]
    ensures QueueOk(after)
  {
    RewriteKeepsFifoIff(w.events, id, e);
    forall s | s in after.holders
      ensures HolderOk(after, s, after.holders[s])
    {
      if s == seller {
        assert HolderOk(w, seller, Working(id));
        HolderAfterRewrite(w, id, e, seller, Working(id));
      } else {
        assert HolderOk(w, s, w.holders[s]);
        HolderAfterRewrite(w, id, e, s, w.holders[s]);
      }
    }
  }

  /** The waiting event a holder moves on to has only completed events before it. */
  lemma NextWaitingIsHead(events: seq<Event>, event: EventId, next: EventId)
    requires UniqueSequences(events) && event < |events| && next < |events|
    requires IsQueueHead(events, event) && LaterWaits(events, event) && IsCompleted(events[event].status)
    requires IsNextWaiting(events, event, next)
    ensures IsQueueHead(events, next) && LaterWaits(events, next)
  {
    forall p | 0 <= p < |events| && Precedes(events, p, next)
      ensures IsCompleted(events[p].status)
    {
      assert p == event || Precedes(events, p, event) || Precedes(events, event, p);
    }
    forall p | 0 <= p < |events| && Precedes(events, next, p)
      ensures !IsUnderway(events[p])
    {
      assert Precedes(events, event, p);
    }
  }

  /**
    What the batch writer must find for its event to be settled without harm: the order of the queue allows the new
    state, and so does the worker, if any, that holds the salesperson's lock for another event.
  */
  predicate MayReconcile(w: World, id: EventId, e: Event)
    requires id < |w.events|
  {
    OrderAllows(w.events, id, e) &&
    (w.events[id].seller in w.holders ==> HolderAllows(w.events, w.holders[w.events[id].seller], id, e))
  }

  /** Settling an event without the lock keeps the queue in order if and only if that check holds. */
  lemma ReconcilingKeepsQueueIff(w: World, event: EventId, status: EventStatus, ticks: nat)
    requires QueueOk(w) && Enabled(w, ReconcileStep(event, status, ticks))
    ensures QueueOk(Apply(w, ReconcileStep(event, status, ticks))) <==>
              MayReconcile(w, event, Reconciled(w.events[event], status, Tick(w, ticks)))
  {
    var e := Reconciled(w.events[event], status, Tick(w, ticks));
    var after := Apply(w, ReconcileStep(event, status, ticks));
    RewriteKeepsFifoIff(w.events, event, e);
    forall s | s in w.holders
      ensures HolderOk(after, s, after.holders[s]) <==> HolderAllows(w.events, w.holders[s], event, e)
      ensures s != e.seller ==> HolderAllows(w.events, w.holders[s], event, e)
    {
      assert HolderOk(w, s, w.holders[s]);
      HolderAfterRewrite(w, event, e, s, w.holders[s]);
    }
  }

  /** In particular a completed event may be reopened, as far as the stored queue goes, exactly while all later ones wait. */
  lemma ReopeningKeepsOrderIff(events: seq<Event>, id: EventId, e: Event)
    requires UniqueSequences(events) && Fifo(events) && id < |events| && SameEvent(events[id], e)
    requires IsCompleted(events[id].status) && !IsCompleted(e.status)
    ensures Fifo(events[id := e]) <==> LaterWaits(events, id)
  {
    RewriteKeepsFifoIff(events, id, e);
    UnderwayIsHead(events, id);
  }

  /** A step of the batch writer that fails the check; every other step is harmless. */
  ghost predicate IsHarmless(w: World, step: Step) {
    step.ReconcileStep? && Enabled(w, step) ==>
      MayReconcile(w, step.event, Reconciled(w.events[step.event], step.status, Tick(w, step.ticks)))
  }

  lemma StepKeepsQueue(w: World, step: Step)
    requires QueueOk(w) && TokensOk(w) && Enabled(w, step) && IsHarmless(w, step)
    ensures QueueOk(Apply(w, step))
  {
    var after := Apply(w, step);
    match step
    case ArriveStep(seller, sequence, ticks) => ArriveKeepsQueue(w, seller, sequence, ticks);
    case ScanClaimStep => ScanClaimKeepsQueue(w);
    case TakeStep(seller, ticks) =>
      var t := w.holders[seller].ticket;
      assert HolderKnown(w, seller, w.holders[seller]);
      if IsLive(w, t) {
        UnderwayIsHead(w.events, t.event);
        ProcessingMakesLaterWait(w.events, t.event);
        HolderStepKeepsQueue(w, seller, t.event, after.events[t.event], after);
      } else {
        FewerHoldersKeepQueue(w, after);
      }
    case OutcomeStep(seller, status, clears) =>
      var e := w.holders[seller].event;
      assert HolderOk(w, seller, w.holders[seller]);
      assert w.holders[seller := Working(e)] == w.holders;
      HolderStepKeepsQueue(w, seller, e, after.events[e], after);
    case RefreshStep(seller, ticks) =>
      var e := w.holders[seller].event;
      assert HolderOk(w, seller, w.holders[seller]);
      assert w.holders[seller := Working(e)] == w.holders;
      HolderStepKeepsQueue(w, seller, e, after.events[e], after);
    case AdvanceStep(seller, next, ticks) =>
      assert HolderOk(w, seller, w.holders[seller]);
      NextWaitingIsHead(w.events, w.holders[seller].event, next);
      HolderStepKeepsQueue(w, seller, next, after.events[next], after);
    case ReconcileStep(event, status, ticks) => ReconcilingKeepsQueueIff(w, event, status, ticks);
    case AcquireStep(ticket) => FewerHoldersKeepQueue(w, after);
    case ScanStartStep(_, _, _, _) => FewerHoldersKeepQueue(w, after);
    case ScanEndStep => FewerHoldersKeepQueue(w, after);
    case ReleaseStep(_) => FewerHoldersKeepQueue(w, after);
  }

  lemma FewerHoldersKeepQueue(w: World, after: World)
    requires QueueOk(w) && after.events == w.events
    requires forall s :: s in after.holders && after.holders[s].Working? ==>
               s in w.holders && after.holders[s] == w.holders[s]
    ensures QueueOk(after)
  {
    forall s | s in after.holders
      ensures HolderOk(after, s, after.holders[s])
    {
      assert s in w.holders ==> HolderOk(w, s, w.holders[s]);
    }
  }

  // ---------- the tokens are kept ----------

  /** No step ever gives an event back the token of a dead ticket. */
  lemma DeadStaysDeadInOneStep(w: World, step: Step, t: Ticket)
    requires TokensOk(w) && t in w.tickets && IsDead(w, t)
    ensures t in Apply(w, step).tickets && IsDead(Apply(w, step), t)
  {
  }

  lemma StepKeepsHoldersKnown(w: World, step: Step, s: Seller)
    requires forall x :: x in w.holders ==> HolderKnown(w, x, w.holders[x])
    requires Enabled(w, step) && s in Apply(w, step).holders
    ensures HolderKnown(Apply(w, step), s, Apply(w, step).holders[s])
  {
    assert s in w.holders ==> HolderKnown(w, s, w.holders[s]);
  }

  /** A ticket that is taken over was issued, was never taken before, and is dead from then on. */
  lemma StepKeepsTaken(w: World, step: Step, k: nat)
    requires TokensOk(w) && Enabled(w, step) && k < |Apply(w, step).taken|
    ensures var after := Apply(w, step);
            && after.taken[k] in after.tickets && IsDead(after, after.taken[k])
            && forall i :: 0 <= i < k ==> after.taken[i] != after.taken[k]
  {
    if k < |w.taken| {
      DeadStaysDeadInOneStep(w, step, w.taken[k]);
    } else {
      assert HolderKnown(w, step.seller, w.holders[step.seller]);
    }
  }

  lemma StepKeepsScanTokens(w: World, step: Step)
    requires TokensOk(w) && Enabled(w, step)
    ensures var after := Apply(w, step);
            && (forall t :: t in after.tickets ==> t.event < |after.events| && t.token <= after.clock)
            && (after.scan.Some? ==>
                && after.scan.value.now <= after.clock && DistinctIds(after.scan.value.rest)
                && forall k :: 0 <= k < |after.scan.value.rest| ==>
                     Ticket(after.scan.value.rest[k], after.scan.value.now) !in after.tickets)
  {
    var after := Apply(w, step);
    if step.ScanClaimStep? {
      forall k | 0 <= k < |after.scan.value.rest|
        ensures Ticket(after.scan.value.rest[k], after.scan.value.now) !in after.tickets
      {
        assert after.scan.value.rest[k] == w.scan.value.rest[k + 1];
      }
    }
  }

  lemma StepKeepsTokens(w: World, step: Step)
    requires TokensOk(w) && Enabled(w, step)
    ensures TokensOk(Apply(w, step))
  {
    var after := Apply(w, step);
    forall s | s in after.holders
      ensures HolderKnown(after, s, after.holders[s])
    {
      StepKeepsHoldersKnown(w, step, s);
    }
    forall k | 0 <= k < |after.taken|
      ensures after.taken[k] in after.tickets && IsDead(after, after.taken[k])
      ensures forall i :: 0 <= i < k ==> after.taken[i] != after.taken[k]
    {
      StepKeepsTaken(w, step, k);
    }
    StepKeepsScanTokens(w, step);
  }

  /** Whatever the batch writer does, the claims and tickets stay in order. */
  lemma {:induction false} RunKeepsTokens(w: World, steps: seq<Step>)
    requires TokensOk(w)
    ensures TokensOk(Run(w, steps))
  {
    if steps != [] {
      var mid, last := Run(w, steps[..|steps| - 1]), steps[|steps| - 1];
      RunKeepsTokens(w, steps[..|steps| - 1]);
      if Enabled(mid, last) {
        StepKeepsTokens(mid, last);
      }
    }
  }

  /** Runs in which the batch writer settles an event only when the check holds. */
  ghost predicate Orderly(w: World, steps: seq<Step>) {
    steps == [] ||
    (Orderly(w, steps[..|steps| - 1]) && IsHarmless(Run(w, steps[..|steps| - 1]), steps[|steps| - 1]))
  }

  lemma {:induction false} RunKeepsQueue(w: World, steps: seq<Step>)
    requires QueueOk(w) && TokensOk(w) && Orderly(w, steps)
    ensures QueueOk(Run(w, steps))
  {
    if steps != [] {
      var mid, last := Run(w, steps[..|steps| - 1]), steps[|steps| - 1];
      RunKeepsQueue(w, steps[..|steps| - 1]);
      RunKeepsTokens(w, steps[..|steps| - 1]);
      if Enabled(mid, last) {
        StepKeepsQueue(mid, last);
      }
    }
  }

  // ---------- what holds in every run ----------

  /** What the order of the queue means for two events of one salesperson. */
  ghost predicate InQueueOrder(events: seq<Event>) {
    forall p, id :: 0 <= p < |events| && 0 <= id < |events| && events[p].seller == events[id].seller ==>
      && (Precedes(events, p, id) && IsUnderway(events[id]) ==> IsCompleted(events[p].status))
      && (events[p].status == Processing && events[id].status == Processing ==> p == id)
  }

  lemma FifoMeansQueueOrder(events: seq<Event>)
    requires UniqueSequences(events) && Fifo(events)
    ensures InQueueOrder(events)
  {
    forall p, id | 0 <= p < |events| && 0 <= id < |events| && events[p].seller == events[id].seller
      ensures Precedes(events, p, id) && IsUnderway(events[id]) ==> IsCompleted(events[p].status)
      ensures events[p].status == Processing && events[id].status == Processing ==> p == id
    {
      assert p == id || Precedes(events, p, id) || Precedes(events, id, p);
    }
  }

  /**
    Per-salesperson order: an event that is processing or completed has all its predecessors completed, so the
    completed events are a prefix of the queue and at most one event of a salesperson is processing. It holds in
    every run in which the batch writer settles events only when the check holds.
  */
  lemma QueueOrder(w0: World, steps: seq<Step>)
    requires Init(w0) && Orderly(w0, steps)
    ensures InQueueOrder(Run(w0, steps).events)
  {
    RunKeepsQueue(w0, steps);
    FifoMeansQueueOrder(Run(w0, steps).events);
  }

  /** After an orderly run the check decides about the next step of the batch writer, both ways. */
  lemma NextReconcileKeepsOrderIff(w0: World, steps: seq<Step>, event: EventId, status: EventStatus, ticks: nat)
    requires Init(w0) && Orderly(w0, steps) && Enabled(Run(w0, steps), ReconcileStep(event, status, ticks))
    ensures var w := Run(w0, steps);
            QueueOk(Apply(w, ReconcileStep(event, status, ticks))) <==>
              MayReconcile(w, event, Reconciled(w.events[event], status, Tick(w, ticks)))
  {
    RunKeepsQueue(w0, steps);
    ReconcilingKeepsQueueIff(Run(w0, steps), event, status, ticks);
  }

  /** Each dispatch claim is taken over at most once, however often its task is delivered. */
  lemma ClaimTakenAtMostOnce(w0: World, steps: seq<Step>, i: nat, j: nat)
    requires Init(w0) && i < |Run(w0, steps).taken| && j < |Run(w0, steps).taken|
    requires Run(w0, steps).taken[i] == Run(w0, steps).taken[j]
    ensures i == j
  {
    RunKeepsTokens(w0, steps);
  }

  lemma {:induction false} DeadStaysDead(w: World, more: seq<Step>, t: Ticket)
    requires TokensOk(w) && t in w.tickets && IsDead(w, t)
    ensures t in Run(w, more).tickets && IsDead(Run(w, more), t)
  {
    if more != [] {
      DeadStaysDead(w, more[..|more| - 1], t);
      RunKeepsTokens(w, more[..|more| - 1]);
      DeadStaysDeadInOneStep(Run(w, more[..|more| - 1]), more[|more| - 1], t);
    }
  }

  /** A task whose claim was superseded by a later claim, or already used, never takes its event again. */
  lemma SupersededTicketNeverTaken(w0: World, steps: seq<Step>, more: seq<Step>, t: Ticket)
    requires Init(w0) && t in Run(w0, steps).tickets && IsDead(Run(w0, steps), t)
    ensures !IsLive(Run(Run(w0, steps), more), t)
  {
    RunKeepsTokens(w0, steps);
    DeadStaysDead(Run(w0, steps), more, t);
  }

  /** A claim by a scan kills every ticket issued for the event before. */
  lemma LaterClaimSupersedes(w0: World, steps: seq<Step>, t: Ticket)
    requires Init(w0) && t in Run(w0, steps).tickets && Enabled(Run(w0, steps), ScanClaimStep)
    requires var w := Run(w0, steps);
             t.event == w.scan.value.rest[0] && Apply(w, ScanClaimStep).events != w.events
    ensures IsDead(Apply(Run(w0, steps), ScanClaimStep), t)
  {
    RunKeepsTokens(w0, steps);
    var w := Run(w0, steps);
    assert Ticket(w.scan.value.rest[0], w.scan.value.now) !in w.tickets;
  }

  // ---------- while a worker holds the lock ----------

  /** The salesperson's lock is held in every world of the run. */
  ghost predicate HeldThroughout(w: World, seller: Seller, steps: seq<Step>) {
    seller in Run(w, steps).holders && (steps != [] ==> HeldThroughout(w, seller, steps[..|steps| - 1]))
  }

  /** A ticket for an event of the salesperson. */
  predicate IsTicketOf(w: World, seller: Seller, t: Ticket) {
    t in w.tickets && t.event < |w.events| && w.events[t.event].seller == seller
  }

  lemma {:induction false} SellersNeverChange(w: World, steps: seq<Step>)
    ensures |w.events| <= |Run(w, steps).events|
    ensures forall i :: 0 <= i < |w.events| ==> Run(w, steps).events[i].seller == w.events[i].seller
  {
    if steps != [] {
      SellersNeverChange(w, steps[..|steps| - 1]);
    }
  }

  /** While a worker holds a salesperson's lock, no scan issues a ticket for any event of that salesperson. */
  lemma {:induction false} NoTicketUnderLock(w: World, seller: Seller, more: seq<Step>, t: Ticket)
    requires TokensOk(w) && HeldThroughout(w, seller, more) && IsTicketOf(Run(w, more), seller, t)
    ensures IsTicketOf(w, seller, t)
  {
    if more != [] {
      var front, last := more[..|more| - 1], more[|more| - 1];
      RunKeepsTokens(w, front);
      var mid := Run(w, front);
      assert seller in mid.holders;
      assert IsTicketOf(mid, seller, t);
      NoTicketUnderLock(w, seller, front, t);
    }
  }

  /**
    While a worker is on an event it stays the only one: as long as the lock is held, no claim on any event of the
    salesperson is taken over. So two tasks never work through one event at the same time.
  */
  lemma {:induction false} OneConsumerAtATime(w: World, seller: Seller, more: seq<Step>, k: nat)
    requires TokensOk(w) && seller in w.holders && w.holders[seller].Working? && HeldThroughout(w, seller, more)
    requires |w.taken| <= k < |Run(w, more).taken|
    ensures var later := Run(w, more);
            later.taken[k].event < |later.events| && later.events[later.taken[k].event].seller != seller
  {
    var front, last := more[..|more| - 1], more[|more| - 1];
    var mid := Run(w, front);
    RunKeepsTokens(w, front);
    HolderStaysWorking(w, seller, front);
    if k < |mid.taken| {
      OneConsumerAtATime(w, seller, front, k);
    }
    TakenByOthers(mid, last, seller, k);
  }

  lemma TakenByOthers(w: World, step: Step, seller: Seller, k: nat)
    requires TokensOk(w) && seller in w.holders && w.holders[seller].Working? && k < |Apply(w, step).taken|
    requires k < |w.taken| ==> w.taken[k].event < |w.events| && w.events[w.taken[k].event].seller != seller
    ensures var after := Apply(w, step);
            after.taken[k].event < |after.events| && after.events[after.taken[k].event].seller != seller
  {
    if k >= |w.taken| {
      assert HolderKnown(w, step.seller, w.holders[step.seller]);
    }
  }

  lemma {:induction false} HolderStaysWorking(w: World, seller: Seller, steps: seq<Step>)
    requires seller in w.holders && w.holders[seller].Working? && HeldThroughout(w, seller, steps)
    ensures seller in Run(w, steps).holders && Run(w, steps).holders[seller].Working?
  {
    if steps != [] {
      HolderStaysWorking(w, seller, steps[..|steps| - 1]);
    }
  }

  /** Two workers on one event are one worker. */
  lemma OneWorkerPerEvent(w0: World, steps: seq<Step>, s: Seller, t: Seller)
    requires Init(w0) && s in Run(w0, steps).holders && t in Run(w0, steps).holders
    requires Run(w0, steps).holders[s].Working? && Run(w0, steps).holders[t] == Run(w0, steps).holders[s]
    ensures s == t
  {
    RunKeepsTokens(w0, steps);
    var w := Run(w0, steps);
    assert HolderKnown(w, s, w.holders[s]) && HolderKnown(w, t, w.holders[t]);
  }

  // ---------- the cap, with workers in between ----------

  /** Steps of workers and of the batch writer, each of which may make one lease fresh. */
  function WorkerMoves(steps: seq<Step>): nat {
    if steps == [] then 0 else WorkerMoves(steps[..|steps| - 1]) + WorkerMove(steps[|steps| - 1])
  }

  function WorkerMove(step: Step): nat {
    if step.TakeStep? || step.OutcomeStep? || step.RefreshStep? || step.AdvanceStep? || step.ReconcileStep? then 1 else 0
  }

  /** Leases fresh by the scan's clock, and the slots it may still fill. */
  function Load(w: World, now: int, lease: nat): nat {
    FreshCount(w.events, now, lease) + if w.scan.Some? then w.scan.value.slots else 0
  }

  predicate ScanIs(w: World, now: int, lease: nat) {
    w.scan.Some? ==> w.scan.value.now == now && w.scan.value.lease == lease
  }

  lemma OneStepLoad(w: World, step: Step, now: int, lease: nat)
    requires TokensOk(w) && ScanIs(w, now, lease) && !step.ScanStartStep?
    ensures ScanIs(Apply(w, step), now, lease)
    ensures Load(Apply(w, step), now, lease) <= Load(w, now, lease) + WorkerMove(step)
  {
    if Enabled(w, step) {
      var after := Apply(w, step);
      match step
      case ArriveStep(_, _, _) => assert after.events[..|w.events|] == w.events;
      case ScanClaimStep =>
        var id := w.scan.value.rest[0];
        if after.events != w.events {
          FreshCountAfterClaim(w.events, id, now, lease);
        }
      case TakeStep(seller, _) =>
        var t := w.holders[seller].ticket;
        if IsLive(w, t) {
          FreshCountAfterRewrite(w.events, t.event, after.events[t.event], now, lease);
        }
      case OutcomeStep(seller, _, _) =>
        var e := w.holders[seller].event;
        FreshCountAfterRewrite(w.events, e, after.events[e], now, lease);
      case RefreshStep(seller, _) =>
        var e := w.holders[seller].event;
        FreshCountAfterRewrite(w.events, e, after.events[e], now, lease);
      case AdvanceStep(seller, next, _) =>
        FreshCountAfterRewrite(w.events, next, after.events[next], now, lease);
      case ReconcileStep(event, _, _) =>
        FreshCountAfterRewrite(w.events, event, after.events[event], now, lease);
      case _ =>
    }
  }

  lemma {:induction false} LoadOverRun(w: World, more: seq<Step>, now: int, lease: nat)
    requires TokensOk(w) && ScanIs(w, now, lease) && forall k :: 0 <= k < |more| ==> !more[k].ScanStartStep?
    ensures ScanIs(Run(w, more), now, lease)
    ensures Load(Run(w, more), now, lease) <= Load(w, now, lease) + WorkerMoves(more)
  {
    if more != [] {
      var front := more[..|more| - 1];
      assert forall k :: 0 <= k < |front| ==> front[k] == more[k];
      LoadOverRun(w, front, now, lease);
      RunKeepsTokens(w, front);
      OneStepLoad(Run(w, front), more[|more| - 1], now, lease);
    }
  }

  /**
    A scan whose transactions interleave with workers still never exceeds the cap by itself: if the fresh leases were
    within the cap when it started, any excess up to its end is due to as many steps of workers and the batch writer.
  */
  lemma ScanAloneKeepsCap(
    w0: World, steps: seq<Step>, candidates: seq<EventId>, lease: nat, maxInFlight: int, ticks: nat, more: seq<Step>)
    requires Init(w0) && Enabled(Run(w0, steps), ScanStartStep(candidates, lease, maxInFlight, ticks))
    requires forall k :: 0 <= k < |more| ==> !more[k].ScanStartStep?
    requires FreshCount(Run(w0, steps).events, Tick(Run(w0, steps), ticks), lease) <= maxInFlight
    ensures var w := Run(w0, steps);
            var later := Run(Apply(w, ScanStartStep(candidates, lease, maxInFlight, ticks)), more);
            FreshCount(later.events, Tick(w, ticks), lease) <= maxInFlight + WorkerMoves(more)
  {
    var w, start := Run(w0, steps), ScanStartStep(candidates, lease, maxInFlight, ticks);
    RunKeepsTokens(w0, steps);
    StepKeepsTokens(w, start);
    LoadOverRun(Apply(w, start), more, Tick(w, ticks), lease);
  }

  // ---------- when the batch writer breaks the order ----------

  /**
    The check can fail in a run of the code: a message waits in a batch while the next one is processed, and the
    batch writer puts the first one back to processing. Then two events of one salesperson are processing.
  */
  lemma ReopeningBreaksTheOrder()
    ensures var waiting := Event(0, 1, 1, BatchPending, None);
            var w0 := World([waiting, Event(0, 2, 2, Pending, None)], 2, None, {}, map[], []);
            var steps := [ScanStartStep([1], 900, 10, 0), ScanClaimStep];
            var w := Run(w0, steps);
            && Init(w0) && Orderly(w0, steps)
            && Enabled(w, ReconcileStep(0, Processing, 0))
            && !MayReconcile(w, 0, Reconciled(waiting, Processing, Tick(w, 0)))
            && !InQueueOrder(Apply(w, ReconcileStep(0, Processing, 0)).events)
  {
    var waiting := Event(0, 1, 1, BatchPending, None);
    var next := Event(0, 2, 2, Pending, None);
    var w0 := World([waiting, next], 2, None, {}, map[], []);
    var start, claim := ScanStartStep([1], 900, 10, 0), ScanClaimStep;
    var steps := [start, claim];
    NoneFresh(waiting, next);
    var w1 := World([waiting, next], 3, Some(Scan(3, 900, 10, [1])), {}, map[], []);
    assert Apply(w0, start) == w1;
    assert [start][..0] == [] && Run(w0, []) == w0 && Run(w0, [start]) == w1;
    assert steps[..1] == [start];
    var claimed := next.(status := Processing, startedAt := Some(3));
    assert IsQueueHead(w1.events, 1);
    assert Apply(w1, claim).events == [waiting, claimed];
    var w := Apply(w1, claim);
    assert Run(w0, steps) == w;
    assert Orderly(w0, []) && Orderly(w0, [start]) && Orderly(w0, steps);
    assert Precedes(w.events, 0, 1);
    var after := Apply(w, ReconcileStep(0, Processing, 0));
    assert after.events[0].status == Processing && after.events[1].status == Processing;
  }

  lemma NoneFresh(a: Event, b: Event)
    requires a.status != Processing && b.status != Processing
    ensures FreshCount([a, b], 3, 900) == 0
  {
    assert [a, b][..1] == [a] && [a][..0] == [];
    assert FreshCount([a], 3, 900) == 0;
  }
}
