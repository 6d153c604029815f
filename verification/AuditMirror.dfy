/**
  The audit mirror queue (workers/tasks.py:75-260, 350-371, 497-636): claims fenced by a token, deferral until the
  source message is done, and the dispatch scan.
*/
module AuditMirror {
  import opened Common
  import opened Failures

  type OutboxId = nat
  type Token = nat

  datatype MirrorStatus = Pending | Processing | Retrying | WaitingSource | Succeeded | FailedPendingReview

  datatype Row = Row(
    status: MirrorStatus, attempts: nat, startedAt: Option<int>, dispatchLease: Option<int>,
    token: Option<Token>, category: Option<Category>, updatedAt: int)

  /** `error` None is a failure without a caught exception. */
  datatype MirrorResult = Mirrored | Failed(error: Option<TaskError>)

  datatype FinishReply = Settled(status: MirrorStatus) | Stale

  /** `audit_retry_delay_seconds` */
  function RetryDelay(attempts: int): nat {
    if attempts <= 1 then 30 else if attempts == 2 then 60 else if attempts == 3 then 120 else 300
  }

  /** The four-way SQL condition of `_audit_mirror_retry_due_condition`. */
  predicate RetryDue(r: Row, now: int) {
    || (r.attempts <= 1 && r.updatedAt <= now - RetryDelay(1))
    || (r.attempts == 2 && r.updatedAt <= now - RetryDelay(2))
    || (r.attempts == 3 && r.updatedAt <= now - RetryDelay(3))
    || (r.attempts >= 4 && r.updatedAt <= now - RetryDelay(4))
  }

  /** The SQL condition is the Python back-off applied to the row's own attempts. */
  lemma RetryDueIsTheBackoff(r: Row, now: int)
    ensures RetryDue(r, now) <==> r.updatedAt + RetryDelay(r.attempts) <= now
  {
  }

  predicate Expired(r: Row, now: int, timeout: nat) {
    r.status == Processing && r.startedAt.Some? && r.startedAt.value < now - timeout
  }

  predicate Claimable(r: Row, now: int, timeout: nat) {
    || r.status == Pending
    || (r.status == Retrying && (r.dispatchLease.Some? || RetryDue(r, now)))
    || Expired(r, now, timeout)
  }

  function Claimed(r: Row, now: int, token: Token): Row {
    Row(Processing, r.attempts + 1, Some(now), None, Some(token), None, now)
  }

  predicate Holds(r: Row, token: Token) {
    r.status == Processing && r.token == Some(token)
  }

  function FailureCategory(result: MirrorResult): Category
    requires result.Failed?
  {
    if result.error.Some? then Classify(result.error.value) else Unknown
  }

  function Finished(r: Row, result: MirrorResult, now: int): Row {
    var released := r.(startedAt := None, dispatchLease := None, token := None, updatedAt := now);
    match result
    case Mirrored => released.(status := Succeeded, category := None)
    case Failed(_) =>
      released.(status := if FailureCategory(result) == Transient then Retrying else FailedPendingReview,
                category := Some(FailureCategory(result)))
  }

  /** `max(0, attempts - 1)` as in the source. */
  function Deferred(r: Row, now: int): Row {
    Row(WaitingSource, if r.attempts - 1 > 0 then r.attempts - 1 else 0, None, None, None, None, now)
  }

  // ---------- the dispatch scan ----------

  /** A dispatched or running row occupies the single batch worker. */
  predicate IsActive(r: Row, now: int, timeout: nat) {
    || (r.dispatchLease.Some? && r.dispatchLease.value > now)
    || (r.status == Processing && r.startedAt.Some? && r.startedAt.value >= now - timeout)
  }

  predicate IsDue(r: Row, now: int, timeout: nat, sourceDone: bool) {
    && (r.dispatchLease.None? || r.dispatchLease.value <= now)
    && sourceDone
    && (|| r.status in {Pending, WaitingSource}
        || (r.status == Retrying && RetryDue(r, now))
        || Expired(r, now, timeout))
  }

  function Dispatched(r: Row, now: int, timeout: nat): Row {
    r.(status := if r.status == WaitingSource then Pending else r.status,
       dispatchLease := Some(now + timeout), updatedAt := now)
  }

  /** ORDER BY status != 'pending', updated_at, id */
  predicate Before(rows: seq<Row>, i: OutboxId, j: OutboxId)
    requires i < |rows| && j < |rows|
  {
    var a, b := rows[i].status != Pending, rows[j].status != Pending;
    if a != b then !a
    else if rows[i].updatedAt != rows[j].updatedAt then rows[i].updatedAt < rows[j].updatedAt
    else i < j
  }

  ghost predicate Ordered(rows: seq<Row>, ids: seq<OutboxId>) {
    && (forall k :: 0 <= k < |ids| ==> ids[k] < |rows|)
    && forall a, b :: 0 <= a < b < |ids| ==> Before(rows, ids[a], ids[b])
  }

  function InsertId(rows: seq<Row>, ids: seq<OutboxId>, id: OutboxId): (r: seq<OutboxId>)
    requires id < |rows| && Ordered(rows, ids) && id !in ids
    ensures Ordered(rows, r) && forall x :: x in r <==> x == id || x in ids
  {
    if ids == [] then [id]
    else if Before(rows, id, ids[0]) then [id] + ids
    else
      var rest := InsertId(rows, ids[1..], id);
      assert forall k :: 0 <= k < |rest| ==> Before(rows, ids[0], rest[k]) by {
        forall k | 0 <= k < |rest|
          ensures Before(rows, ids[0], rest[k])
        {
          assert rest[k] in rest;
        }
      }
      [ids[0]] + rest
  }

  function DueIds(rows: seq<Row>, now: int, timeout: nat, sourceDone: set<OutboxId>, bound: nat): (r: seq<OutboxId>)
    requires bound <= |rows|
    ensures Ordered(rows, r)
    ensures forall id: OutboxId :: id in r <==> id < bound && IsDue(rows[id], now, timeout, id in sourceDone)
  {
    if bound == 0 then []
    else
      var rest := DueIds(rows, now, timeout, sourceDone, bound - 1);
      if IsDue(rows[bound - 1], now, timeout, bound - 1 in sourceDone) then InsertId(rows, rest, bound - 1) else rest
  }

  predicate AnyActive(rows: seq<Row>, now: int, timeout: nat) {
    exists i :: 0 <= i < |rows| && IsActive(rows[i], now, timeout)
  }

  /** The ids one scan dispatches. */
  function ScanSelection(rows: seq<Row>, now: int, timeout: nat, batch: nat, sourceDone: set<OutboxId>): (r: seq<OutboxId>)
    ensures forall k :: 0 <= k < |r| ==> r[k] < |rows| && IsDue(rows[r[k]], now, timeout, r[k] in sourceDone)
    ensures forall a, b :: 0 <= a < b < |r| ==> r[a] != r[b]
  {
    var due := DueIds(rows, now, timeout, sourceDone, |rows|);
    var chosen := if AnyActive(rows, now, timeout) then [] else if |due| <= batch then due else due[..batch];
    assert forall k :: 0 <= k < |chosen| ==> chosen[k] in due;
    assert forall a, b :: 0 <= a < b < |chosen| ==> Before(rows, chosen[a], chosen[b]);
    chosen
  }

  /** All rows after a scan. */
  function Scanned(rows: seq<Row>, now: int, timeout: nat, chosen: seq<OutboxId>): (r: seq<Row>)
    ensures |r| == |rows|
    ensures forall i :: 0 <= i < |rows| ==> r[i] == if i in chosen then Dispatched(rows[i], now, timeout) else rows[i]
  {
    seq(|rows|, i requires 0 <= i < |rows| => if i in chosen then Dispatched(rows[i], now, timeout) else rows[i])
  }

  class AuditMirrorQueue {
    var rows: seq<Row>

    constructor (rows: seq<Row>)
      ensures this.rows == rows
    {
      this.rows := rows;
    }

    /** `_claim_audit_mirror_outbox`; `newToken` is the new random token. */
    method Claim(id: OutboxId, now: int, timeout: nat, newToken: Token) returns (token: Option<Token>)
      modifies this
      ensures token.Some? <==> id < |old(rows)| && Claimable(old(rows)[id], now, timeout)
      ensures token.Some? ==> token == Some(newToken) && rows == old(rows)[id := Claimed(old(rows)[id], now, newToken)]
      ensures token.None? ==> rows == old(rows)
    {
      if id >= |rows| || !Claimable(rows[id], now, timeout) {
        return None;
      }
      var outbox := rows[id];
      outbox := outbox.(status := Processing, attempts := outbox.attempts + 1);
      outbox := outbox.(startedAt := Some(now), dispatchLease := None);
      outbox := outbox.(token := Some(newToken), category := None, updatedAt := now);
      rows := rows[id := outbox];
      token := Some(newToken);
    }

    /** `_finish_audit_mirror` */
    method Finish(id: OutboxId, token: Token, result: MirrorResult, now: int) returns (reply: FinishReply)
      modifies this
      ensures
        if id < |old(rows)| && Holds(old(rows)[id], token)
        then rows == old(rows)[id := Finished(old(rows)[id], result, now)] && reply == Settled(rows[id].status)
        else rows == old(rows) && reply == Stale
    {
      if id >= |rows| || rows[id].status != Processing || rows[id].token != Some(token) {
        return Stale;
      }
      var outbox := rows[id];
      outbox := outbox.(startedAt := None, dispatchLease := None, token := None, updatedAt := now);
      match result {
        case Mirrored =>
          outbox := outbox.(status := Succeeded, category := None);
        case Failed(error) =>
          var category := if error.Some? then Classify(error.value) else Unknown;
          outbox := outbox.(status := if category == Transient then Retrying else FailedPendingReview);
          outbox := outbox.(category := Some(category));
      }
      rows := rows[id := outbox];
      reply := Settled(outbox.status);
    }

    /** `_defer_audit_mirror` */
    method Defer(id: OutboxId, token: Token, now: int)
      modifies this
      ensures
        rows == if id < |old(rows)| && Holds(old(rows)[id], token)
                then old(rows)[id := Deferred(old(rows)[id], now)] else old(rows)
    {
      if id >= |rows| || rows[id].status != Processing || rows[id].token != Some(token) {
        return;
      }
      var outbox := rows[id];
      outbox := outbox.(status := WaitingSource);
      outbox := outbox.(attempts := if outbox.attempts - 1 > 0 then outbox.attempts - 1 else 0);
      outbox := outbox.(startedAt := None, dispatchLease := None, token := None, category := None, updatedAt := now);
      rows := rows[id := outbox];
    }

    /**
      The transaction of `consume_pending_audit_mirrors`: nothing while a batch is in flight, otherwise up to
      `batch` due rows, new records first, each under a dispatch lease.
    */
    method Scan(now: int, timeout: nat, batch: nat, sourceDone: set<OutboxId>) returns (ids: seq<OutboxId>)
      modifies this
      ensures ids == ScanSelection(old(rows), now, timeout, batch, sourceDone)
      ensures rows == Scanned(old(rows), now, timeout, ids)
    {
      ids := ScanSelection(rows, now, timeout, batch, sourceDone);
      ghost var before := rows;
      for k := 0 to |ids|
        invariant |rows| == |before|
        invariant forall i :: 0 <= i < |before| ==>
                    rows[i] == if i in ids[..k] then Dispatched(before[i], now, timeout) else before[i]
      {
        var id := ids[k];
        var outbox := rows[id];
        if outbox.status == WaitingSource {
          outbox := outbox.(status := Pending);
        }
        outbox := outbox.(dispatchLease := Some(now + timeout), updatedAt := now);
        rows := rows[id := outbox];
      }
      assert ids[..|ids|] == ids;
    }
  }

  /** A scan is bounded, idle while anything is active, and prefers earlier rows in its order. */
  lemma ScanIsBoundedAndFair(rows: seq<Row>, now: int, timeout: nat, batch: nat, sourceDone: set<OutboxId>, i: OutboxId)
    requires i < |rows| && IsDue(rows[i], now, timeout, i in sourceDone)
    requires i !in ScanSelection(rows, now, timeout, batch, sourceDone)
    ensures var chosen := ScanSelection(rows, now, timeout, batch, sourceDone);
            || (AnyActive(rows, now, timeout) && chosen == [])
            || (|chosen| == batch && forall k :: 0 <= k < |chosen| ==> Before(rows, chosen[k], i))
  {
    var due := DueIds(rows, now, timeout, sourceDone, |rows|);
    assert i in due;
    var x :| 0 <= x < |due| && due[x] == i;
  }

  /** Right after a scan dispatched something no other scan dispatches, until the lease ends. */
  lemma ScanBlocksNextScan(
    rows: seq<Row>, now: int, timeout: nat, batch: nat, sourceDone: set<OutboxId>, later: int, doneLater: set<OutboxId>)
    requires ScanSelection(rows, now, timeout, batch, sourceDone) != [] && later < now + timeout
    ensures var after := Scanned(rows, now, timeout, ScanSelection(rows, now, timeout, batch, sourceDone));
            ScanSelection(after, later, timeout, batch, doneLater) == []
  {
    var chosen := ScanSelection(rows, now, timeout, batch, sourceDone);
    var after := Scanned(rows, now, timeout, chosen);
    assert chosen[0] in chosen;
    assert IsActive(after[chosen[0]], later, timeout);
  }

  /** A full batch serves new rows before repeated ones, and within each kind those that waited longest. */
  lemma NewRowsFirst(
    rows: seq<Row>, now: int, timeout: nat, batch: nat, sourceDone: set<OutboxId>, i: OutboxId, k: nat)
    requires i < |rows| && IsDue(rows[i], now, timeout, i in sourceDone)
    requires i !in ScanSelection(rows, now, timeout, batch, sourceDone)
    requires k < |ScanSelection(rows, now, timeout, batch, sourceDone)|
    ensures var c := ScanSelection(rows, now, timeout, batch, sourceDone)[k];
            && c < |rows|
            && (rows[i].status == Pending ==> rows[c].status == Pending)
            && ((rows[i].status == Pending <==> rows[c].status == Pending) ==> rows[c].updatedAt <= rows[i].updatedAt)
  {
    ScanIsBoundedAndFair(rows, now, timeout, batch, sourceDone, i);
    assert Before(rows, ScanSelection(rows, now, timeout, batch, sourceDone)[k], i);
  }

  /** While a worker is within its time on any row, no scan dispatches anything. */
  lemma RunningRowBlocksScan(
    rows: seq<Row>, now: int, timeout: nat, batch: nat, sourceDone: set<OutboxId>, i: OutboxId)
    requires i < |rows| && rows[i].status == Processing && rows[i].startedAt.Some?
    requires now - rows[i].startedAt.value <= timeout
    ensures ScanSelection(rows, now, timeout, batch, sourceDone) == []
  {
    assert IsActive(rows[i], now, timeout);
  }
}
