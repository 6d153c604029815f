/** The audit mirror queue over whole runs of scans, workers, crashes and takeovers. */
module AuditMirrorRuns {
  import opened Common
  import opened AuditMirror
  import opened Failures

  /** `issued` are the tokens ever drawn; `claims` and `deferrals` count the committed ones of each row. */
  datatype World = World(
    rows: seq<Row>, issued: set<Token>, claims: multiset<OutboxId>, deferrals: multiset<OutboxId>)

  datatype Step =
    | EnqueueStep(now: int)
    | ClaimStep(id: OutboxId, now: int, timeout: nat, newToken: Token)
    | FinishStep(id: OutboxId, token: Token, result: MirrorResult, now: int)
    | DeferStep(id: OutboxId, token: Token, now: int)
    | ScanStep(now: int, timeout: nat, batch: nat, sourceDone: set<OutboxId>)

  /** A step that cannot happen, or that is fenced off, changes nothing. A claim draws a token never drawn before. */
  function Apply(w: World, step: Step): World {
    match step
    case EnqueueStep(now) => w.(rows := w.rows + [Row(Pending, 0, None, None, None, None, now)])
    case ClaimStep(id, now, timeout, newToken) =>
      if id < |w.rows| && Claimable(w.rows[id], now, timeout) && newToken !in w.issued
      then World(w.rows[id := Claimed(w.rows[id], now, newToken)], w.issued + {newToken},
                 w.claims + multiset{id}, w.deferrals)
      else w
    case FinishStep(id, token, result, now) =>
      if id < |w.rows| && Holds(w.rows[id], token)
      then w.(rows := w.rows[id := Finished(w.rows[id], result, now)]) else w
    case DeferStep(id, token, now) =>
      if id < |w.rows| && Holds(w.rows[id], token)
      then w.(rows := w.rows[id := Deferred(w.rows[id], now)], deferrals := w.deferrals + multiset{id}) else w
    case ScanStep(now, timeout, batch, sourceDone) =>
      w.(rows := Scanned(w.rows, now, timeout, ScanSelection(w.rows, now, timeout, batch, sourceDone)))
  }

  function Run(w: World, steps: seq<Step>): World {
    if steps == [] then w else Apply(Run(w, steps[..|steps| - 1]), steps[|steps| - 1])
  }

  predicate Init(w: World) {
    w == World([], {}, multiset{}, multiset{})
  }

  ghost predicate RowOk(w: World, i: OutboxId)
    requires i < |w.rows|
  {
    var r := w.rows[i];
    && (r.status == Processing <==> r.token.Some?)
    && (r.status == Processing ==> r.attempts >= 1)
    && (r.token.Some? ==> r.token.value in w.issued)
    && w.claims[i] == r.attempts + w.deferrals[i]
  }

  ghost predicate WorldOk(w: World) {
    && (forall i :: 0 <= i < |w.rows| ==> RowOk(w, i))
    && (forall i :: |w.rows| <= i ==> w.claims[i] == 0 && w.deferrals[i] == 0)
    && forall i, j :: 0 <= i < j < |w.rows| && w.rows[i].token.Some? ==> w.rows[i].token != w.rows[j].token
  }

  lemma ScanKeepsWorld(w: World, now: int, timeout: nat, batch: nat, sourceDone: set<OutboxId>)
    requires WorldOk(w)
    ensures WorldOk(Apply(w, ScanStep(now, timeout, batch, sourceDone)))
  {
    var after := Apply(w, ScanStep(now, timeout, batch, sourceDone));
    forall i | 0 <= i < |after.rows|
      ensures RowOk(after, i)
    {
      assert RowOk(w, i);
    }
    forall i, j | 0 <= i < j < |after.rows| && after.rows[i].token.Some?
      ensures after.rows[i].token != after.rows[j].token
    {
      assert w.rows[i].token.Some?;
    }
  }

  lemma StepKeepsWorld(w: World, step: Step)
    requires WorldOk(w)
    ensures WorldOk(Apply(w, step))
  {
    if step.ScanStep? {
      ScanKeepsWorld(w, step.now, step.timeout, step.batch, step.sourceDone);
    } else {
      var after := Apply(w, step);
      forall i | 0 <= i < |after.rows|
        ensures RowOk(after, i)
      {
        if i < |w.rows| { assert RowOk(w, i); }
      }
      forall i, j | 0 <= i < j < |after.rows| && after.rows[i].token.Some?
        ensures after.rows[i].token != after.rows[j].token
      {
        if j < |w.rows| {
          assert RowOk(w, i) && RowOk(w, j);
        }
      }
    }
  }

  lemma {:induction false} RunKeepsWorld(w: World, steps: seq<Step>)
    requires WorldOk(w)
    ensures WorldOk(Run(w, steps))
  {
    if steps != [] {
      RunKeepsWorld(w, steps[..|steps| - 1]);
      StepKeepsWorld(Run(w, steps[..|steps| - 1]), steps[|steps| - 1]);
    }
  }

  lemma InitIsOk(w: World)
    requires Init(w)
    ensures WorldOk(w)
  {
  }

  // ---------- what holds in every run ----------

  /** `attempts` is the number of claims less the number of deferrals, so the clamp of a deferral never acts. */
  lemma AttemptsAreClaimsLessDeferrals(w0: World, steps: seq<Step>, id: OutboxId)
    requires Init(w0) && id < |Run(w0, steps).rows|
    ensures var w := Run(w0, steps);
            && w.claims[id] == w.rows[id].attempts + w.deferrals[id]
            && (w.rows[id].status == Processing ==>
                  forall now :: Deferred(w.rows[id], now).attempts == w.rows[id].attempts - 1)
  {
    InitIsOk(w0);
    RunKeepsWorld(w0, steps);
    assert RowOk(Run(w0, steps), id);
  }

  /** A token that was drawn for some claim and is no longer on the row. */
  predicate IsLapsed(w: World, id: OutboxId, token: Token) {
    id < |w.rows| && token in w.issued && w.rows[id].token != Some(token)
  }

  lemma {:induction false} LapsedStaysLapsed(w: World, more: seq<Step>, id: OutboxId, token: Token)
    requires IsLapsed(w, id, token)
    ensures IsLapsed(Run(w, more), id, token)
  {
    if more != [] {
      LapsedStaysLapsed(w, more[..|more| - 1], id, token);
      var mid, last := Run(w, more[..|more| - 1]), more[|more| - 1];
      assert IsLapsed(Apply(mid, last), id, token);
    }
  }

  /**
    Only the latest claimant settles or defers a row: a successful takeover, finish or deferral lapses the token
    that was on it, and a lapsed token changes nothing in any later world.
  */
  lemma OnlyLatestClaimantActs(
    w: World, more: seq<Step>, id: OutboxId, token: Token, result: MirrorResult, now: int)
    requires IsLapsed(w, id, token)
    ensures var later := Run(w, more);
            && Apply(later, FinishStep(id, token, result, now)) == later
            && Apply(later, DeferStep(id, token, now)) == later
  {
    LapsedStaysLapsed(w, more, id, token);
  }

  lemma EverySettlementLapsesItsToken(w0: World, steps: seq<Step>, step: Step, id: OutboxId, token: Token)
    requires Init(w0) && id < |Run(w0, steps).rows| && Holds(Run(w0, steps).rows[id], token)
    requires step.ClaimStep? || step.FinishStep? || step.DeferStep?
    requires Apply(Run(w0, steps), step).rows[id] != Run(w0, steps).rows[id]
    ensures IsLapsed(Apply(Run(w0, steps), step), id, token)
  {
    InitIsOk(w0);
    RunKeepsWorld(w0, steps);
    assert RowOk(Run(w0, steps), id);
  }

  predicate IsFinal(r: Row) {
    r.status in {Succeeded, FailedPendingReview}
  }

  /** A scan leaves alone every row that is not due at its time. */
  lemma UndueIsUntouched(w: World, step: Step, id: OutboxId)
    requires id < |w.rows| && step.ScanStep?
    requires !IsDue(w.rows[id], step.now, step.timeout, id in step.sourceDone)
    ensures Apply(w, step).rows[id] == w.rows[id]
  {
    var chosen := ScanSelection(w.rows, step.now, step.timeout, step.batch, step.sourceDone);
    assert forall k :: 0 <= k < |chosen| ==> IsDue(w.rows[chosen[k]], step.now, step.timeout, chosen[k] in step.sourceDone);
  }

  /** Mirrored and failed records are final. */
  lemma {:induction false} SettledRowsAreFinal(w: World, more: seq<Step>, id: OutboxId)
    requires id < |w.rows| && IsFinal(w.rows[id])
    ensures id < |Run(w, more).rows| && Run(w, more).rows[id] == w.rows[id]
  {
    if more != [] {
      SettledRowsAreFinal(w, more[..|more| - 1], id);
      if more[|more| - 1].ScanStep? {
        UndueIsUntouched(Run(w, more[..|more| - 1]), more[|more| - 1], id);
      }
    }
  }

  predicate ScansSourceDone(steps: seq<Step>, id: OutboxId) {
    exists k :: 0 <= k < |steps| && steps[k].ScanStep? && id in steps[k].sourceDone
  }

  /** A deferred record stays unclaimable until a scan has found its source message completed. */
  lemma {:induction false} DeferredWaitsForSource(w: World, more: seq<Step>, id: OutboxId)
    requires id < |w.rows| && w.rows[id].status == WaitingSource && !ScansSourceDone(more, id)
    ensures var later := Run(w, more);
            && id < |later.rows| && later.rows[id] == w.rows[id]
            && forall now, timeout: nat :: !Claimable(later.rows[id], now, timeout)
  {
    if more != [] {
      var front := more[..|more| - 1];
      assert forall k :: 0 <= k < |front| ==> front[k] == more[k];
      DeferredWaitsForSource(w, front, id);
      if more[|more| - 1].ScanStep? {
        UndueIsUntouched(Run(w, front), more[|more| - 1], id);
      }
    }
  }

  // ---------- what a settlement means for the row ----------

  /** The back-off of a retry, in seconds. */
  predicate IsBackoff(attempts: nat, delay: nat) {
    && (attempts <= 1 ==> delay == 30) && (attempts == 2 ==> delay == 60)
    && (attempts == 3 ==> delay == 120) && (attempts >= 4 ==> delay == 300)
  }

  /**
    The holder's result settles its row: mirrored rows are done; a failure is final if and only if its error is
    missing or not transient; otherwise the row can be claimed again exactly when its back-off is over.
  */
  lemma FinishSettlesRow(w: World, id: OutboxId, token: Token, result: MirrorResult, now: int, t: int, timeout: nat)
    requires id < |w.rows| && Holds(w.rows[id], token)
    ensures var r := Apply(w, FinishStep(id, token, result, now)).rows[id];
            && r.attempts == w.rows[id].attempts
            && (result.Mirrored? <==> r.status == Succeeded)
            && (result.Failed? ==>
                  (IsFinal(r) <==> result.error.None? || Classify(result.error.value) != Transient)
                  && r.category == Some(if result.error.None? then Unknown else Classify(result.error.value)))
            && (IsFinal(r) ==> !Claimable(r, t, timeout))
            && (!IsFinal(r) ==> exists delay: nat :: IsBackoff(r.attempts, delay) &&
                                  (Claimable(r, t, timeout) <==> now + delay <= t))
  {
    var r := Apply(w, FinishStep(id, token, result, now)).rows[id];
    assert IsBackoff(r.attempts, RetryDelay(r.attempts));
    RetryDueIsTheBackoff(r, t);
  }

  /** A claim protects its holder for `timeout`, and is open to a takeover exactly after that. */
  lemma ClaimProtectsHolder(w: World, id: OutboxId, now: int, timeout: nat, newToken: Token, t: int)
    requires id < |w.rows| && Claimable(w.rows[id], now, timeout) && newToken !in w.issued
    ensures var r := Apply(w, ClaimStep(id, now, timeout, newToken)).rows[id];
            && Holds(r, newToken) && r.attempts == w.rows[id].attempts + 1
            && (Claimable(r, t, timeout) <==> now + timeout < t)
  {
  }

  /** A deferral hands the attempt back and leaves the row waiting for its source. */
  lemma DeferReturnsAttempt(w0: World, steps: seq<Step>, id: OutboxId, token: Token, now: int)
    requires Init(w0) && id < |Run(w0, steps).rows| && Holds(Run(w0, steps).rows[id], token)
    ensures var before := Run(w0, steps).rows[id]; var r := Apply(Run(w0, steps), DeferStep(id, token, now)).rows[id];
            r.status == WaitingSource && r.attempts + 1 == before.attempts && r.token == None
  {
    AttemptsAreClaimsLessDeferrals(w0, steps, id);
    InitIsOk(w0);
    RunKeepsWorld(w0, steps);
    assert RowOk(Run(w0, steps), id);
  }

  /**
    When a row without a running dispatch is picked up again, once its source message is done: at once if it is new
    or was deferred, after the back-off if it failed, after the timeout if its worker vanished, never if it is final.
  */
  lemma DueByStatus(r: Row, now: int, timeout: nat)
    requires r.dispatchLease.None? && (r.status == Processing ==> r.startedAt.Some?)
    ensures r.status in {Pending, WaitingSource} ==> IsDue(r, now, timeout, true)
    ensures r.status == Retrying ==> (IsDue(r, now, timeout, true) <==> r.updatedAt + RetryDelay(r.attempts) <= now)
    ensures r.status == Processing ==> (IsDue(r, now, timeout, true) <==> r.startedAt.value + timeout < now)
    ensures IsFinal(r) ==> !IsDue(r, now, timeout, true)
    ensures !IsDue(r, now, timeout, false)
  {
    RetryDueIsTheBackoff(r, now);
  }

  /** A dispatched row that no worker takes is due again exactly when its dispatch lease is over. */
  lemma DispatchedRowIsDueAgain(w: World, now: int, timeout: nat, batch: nat, sourceDone: set<OutboxId>, id: OutboxId, t: int)
    requires id in ScanSelection(w.rows, now, timeout, batch, sourceDone) && id < |w.rows|
    requires w.rows[id].status in {Pending, WaitingSource}
    ensures var r := Apply(w, ScanStep(now, timeout, batch, sourceDone)).rows[id];
            r.status == Pending && (IsDue(r, t, timeout, true) <==> now + timeout <= t)
  {
  }
}
