/**
  The replayable command "resubmit incomplete leads" (app/crm/commands.py:361-469, 1464-1508;
  app/crm/service.py:818-911): its two transactions, its failure record, and the service call between them.
*/
module Resubmission {
  import opened Common

  type LeadId = nat

  datatype ItemStatus =
    | Created | Updated | FollowedUp | Unchanged | Incomplete | DuplicateConfirmation | MappingMissing
    | Processing | Retrying | FailedPendingReview | CompanyIdentityReview | NotSubmitted

  datatype Item = Item(status: ItemStatus, reason: string)

  type Items = map<LeadId, Item>

  /** The saved result of a lead is not final yet. */
  predicate IsOpen(item: Item) {
    item.status == Retrying || item.status == Processing
  }

  datatype NoticeStatus = Preparing | Pending | Taken   // Taken: claimed or delivered by the notification sender

  datatype Payload = Payload(
    targets: seq<LeadId>, labels: map<LeadId, string>, items: Items,
    reply: Option<string>, awaiting: bool, finished: bool)

  /** The frozen notice doubles as the first piece of the first reply. */
  datatype Notice = Notice(status: NoticeStatus, content: string, payload: Payload)

  datatype Phase = Initial | Final

  datatype ChunkKey = ChunkKey(phase: Phase, index: nat)

  datatype Chunk = Chunk(status: NoticeStatus, content: string)

  datatype EventStatus = EventProcessing | EventRetrying | EventSucceeded | EventFailed

  datatype Db = Db(
    event: EventStatus, attempts: nat, notice: Option<Notice>, chunks: map<ChunkKey, Chunk>,
    terminal: Option<string>)

  /** The key of the frozen notice is the key of the first initial piece. */
  const NOTICE_KEY := ChunkKey(Initial, 0)

  // ---------- specifications of the transactions ----------

  function Frozen(db: Db, targets: seq<LeadId>, labels: map<LeadId, string>): Db {
    if db.notice.Some? then db
    else db.(notice := Some(Notice(Preparing, "", Payload(targets, labels, map[], None, false, false))))
  }

  predicate NeedsCall(lead: LeadId, items: Items) {
    lead !in items || IsOpen(items[lead])
  }

  /** The targets handed to the service: not saved yet, or saved as still open. */
  function RetryTargets(targets: seq<LeadId>, items: Items): (r: seq<LeadId>)
    ensures forall lead :: lead in r <==> lead in targets && NeedsCall(lead, items)
  {
    if targets == [] then []
    else
      var rest := RetryTargets(targets[..|targets| - 1], items);
      assert targets == targets[..|targets| - 1] + [targets[|targets| - 1]];
      if NeedsCall(targets[|targets| - 1], items) then rest + [targets[|targets| - 1]] else rest
  }

  predicate AnyOpen(targets: seq<LeadId>, items: Items) {
    exists k :: 0 <= k < |targets| && targets[k] in items && IsOpen(items[targets[k]])
  }

  /** The tally of a reply: how many targets are retrying and how many are processing. */
  method CountOpen(targets: seq<LeadId>, items: Items) returns (retrying: nat, processing: nat)
    requires forall lead :: lead in targets ==> lead in items
    ensures retrying > 0 || processing > 0 <==> AnyOpen(targets, items)
    ensures retrying + processing <= |targets|
  {
    retrying, processing := 0, 0;
    for k := 0 to |targets|
      invariant retrying > 0 || processing > 0 <==> AnyOpen(targets[..k], items)
      invariant retrying + processing <= k
    {
      assert targets[k] in targets;
      var status := items[targets[k]].status;
      if status == Retrying {
        retrying := retrying + 1;
      }
      if status == Processing {
        processing := processing + 1;
      }
      assert targets[..k + 1] == targets[..k] + [targets[k]];
      OpenOfExtended(targets[..k], targets[k], items);
    }
    assert targets[..|targets|] == targets;
  }

  lemma OpenOfExtended(targets: seq<LeadId>, last: LeadId, items: Items)
    ensures AnyOpen(targets + [last], items) <==> AnyOpen(targets, items) || (last in items && IsOpen(items[last]))
  {
    var all := targets + [last];
    assert all[|targets|] == last;
    assert forall k :: 0 <= k < |targets| ==> all[k] == targets[k];
  }

  /** Whether a second transaction puts messages into the sending queue, and as which reply. */
  predicate Registers(notice: Notice, pending: bool) {
    notice.status == Preparing || (notice.payload.awaiting && !pending)
  }

  function PhaseOf(notice: Notice, pending: bool): Phase {
    if notice.payload.awaiting && !pending then Final else Initial
  }

  /** The pieces of a reply become queued messages, one per key, unless the key is the notice itself or taken. */
  function WithChunks(chunks: map<ChunkKey, Chunk>, phase: Phase, pieces: seq<string>): map<ChunkKey, Chunk> {
    if pieces == [] then chunks
    else
      var rest := WithChunks(chunks, phase, pieces[..|pieces| - 1]);
      var key := ChunkKey(phase, |pieces| - 1);
      if key == NOTICE_KEY || key in rest then rest else rest[key := Chunk(Pending, pieces[|pieces| - 1])]
  }

  function Settled(db: Db, pending: bool, items: Items, reply: string, pieces: seq<string>): Db
    requires db.notice.Some? && |pieces| > 0
  {
    var notice := db.notice.value;
    var phase := PhaseOf(notice, pending);
    var first :=
      if Registers(notice, pending) && phase == Initial && notice.status == Preparing
      then notice.(status := Pending, content := pieces[0]) else notice;
    db.(event := if pending then EventRetrying else EventSucceeded,
        notice := Some(first.(payload :=
          notice.payload.(items := items, reply := Some(reply), awaiting := pending, finished := !pending))),
        chunks := if Registers(notice, pending) then WithChunks(db.chunks, phase, pieces) else db.chunks)
  }

  function FailureRecorded(db: Db, retryCount: nat, reply: string): Db {
    var failed := db.(attempts := db.attempts + 1);
    if failed.attempts <= retryCount then failed.(event := EventRetrying)
    else failed.(event := EventFailed, terminal := if db.terminal.None? then Some(reply) else db.terminal)
  }

  // ---------- the database rows, changed in place ----------

  datatype Start = Finished(reply: string) | Continue(targets: seq<LeadId>, items: Items, selected: seq<LeadId>)

  class IncompleteRetryCommand {
    var event: EventStatus
    var attempts: nat
    var notice: Option<Notice>
    var chunks: map<ChunkKey, Chunk>
    var terminal: Option<string>

    ghost function Rows(): Db
      reads this
    {
      Db(event, attempts, notice, chunks, terminal)
    }

    ghost predicate Valid()
      reads this
    {
      notice.Some? && notice.value.payload.finished ==> notice.value.payload.reply.Some?
    }

    constructor ()
      ensures Rows() == Db(EventProcessing, 0, None, map[], None) && Valid()
    {
      event, attempts, notice, chunks, terminal := EventProcessing, 0, None, map[], None;
    }

    /** The first transaction: freeze the targets once, then read what is left to do. */
    method FreezeOrResume(targets: seq<LeadId>, labels: map<LeadId, string>) returns (start: Start)
      requires Valid()
      modifies this
      ensures Valid() && Rows() == Frozen(old(Rows()), targets, labels)
      ensures start.Finished? <==> notice.value.payload.finished
      ensures start.Finished? ==> Some(start.reply) == notice.value.payload.reply
      ensures start.Continue? ==>
                start == Continue(notice.value.payload.targets, notice.value.payload.items,
                                  RetryTargets(notice.value.payload.targets, notice.value.payload.items))
    {
      if notice.None? {
        notice := Some(Notice(Preparing, "", Payload(targets, labels, map[], None, false, false)));
      }
      var saved := notice.value.payload;
      if saved.finished {
        return Finished(saved.reply.value);
      }
      var itemResults := saved.items;
      var selected: seq<LeadId> := [];
      for k := 0 to |saved.targets|
        invariant selected == RetryTargets(saved.targets[..k], itemResults)
      {
        var leadId := saved.targets[k];
        assert saved.targets[..k + 1][..k] == saved.targets[..k];
        if leadId !in itemResults || itemResults[leadId].status == Retrying || itemResults[leadId].status == Processing {
          selected := selected + [leadId];
        }
      }
      assert saved.targets[..|saved.targets|] == saved.targets;
      start := Continue(saved.targets, itemResults, selected);
    }

    /** The second transaction: the event, the messages of this reply, and the saved results. */
    method Settle(pending: bool, itemResults: Items, reply: string, pieces: seq<string>)
      requires Valid() && notice.Some? && |pieces| > 0
      modifies this
      ensures Valid() && Rows() == Settled(old(Rows()), pending, itemResults, reply, pieces)
    {
      event := if pending then EventRetrying else EventSucceeded;
      var row := notice.value;
      var saved := row.payload;
      var wasPending := saved.awaiting;
      var phase := if wasPending && !pending then Final else Initial;
      if row.status == Preparing || (wasPending && !pending) {
        ghost var before := chunks;
        for index := 0 to |pieces|
          modifies this`chunks
          invariant chunks == WithChunks(before, phase, pieces[..index])
          invariant row == if index > 0 && phase == Initial && old(notice.value).status == Preparing
                           then old(notice.value).(status := Pending, content := pieces[0]) else old(notice.value)
        {
          assert pieces[..index + 1][..index] == pieces[..index];
          var key := ChunkKey(phase, index);
          if key == NOTICE_KEY {
            if row.status == Preparing {
              row := row.(content := pieces[index], status := Pending);
            }
          } else if key !in chunks {
            chunks := chunks[key := Chunk(Pending, pieces[index])];
          }
        }
        assert pieces[..|pieces|] == pieces;
      }
      notice := Some(row.(payload :=
        saved.(reply := Some(reply), awaiting := pending, finished := !pending, items := itemResults)));
    }

    /** `_record_command_failure` */
    method RecordFailure(retryCount: nat, reply: string)
      requires Valid()
      modifies this
      ensures Valid() && Rows() == FailureRecorded(old(Rows()), retryCount, reply)
    {
      attempts := attempts + 1;
      if attempts <= retryCount {
        event := EventRetrying;
        return;
      }
      if terminal.None? {
        terminal := Some(reply);
      }
      event := EventFailed;
    }
  }

  // ---------- the service call between the transactions ----------

  /** What the service reads of a selected lead. */
  datatype LeadFacts = LeadFacts(inTable: bool, succeededRequest: Option<string>)

  predicate IsUncreated(lead: LeadId, leads: map<LeadId, LeadFacts>) {
    lead in leads && leads[lead].inTable && leads[lead].succeededRequest.None?
  }

  predicate MayCreate(lead: LeadId, leads: map<LeadId, LeadFacts>, openRows: set<LeadId>) {
    IsUncreated(lead, leads) && lead in openRows
  }

  /** The item of one selected lead; `outcomes` are the results of the creates that were run. */
  function ItemFor(
    lead: LeadId, request: string, leads: map<LeadId, LeadFacts>, openRows: set<LeadId>, outcomes: LeadId -> Item): Item
  {
    if MayCreate(lead, leads, openRows) then outcomes(lead)
    else if lead in leads && leads[lead].inTable && leads[lead].succeededRequest == Some(request) then
      Item(Created, "")
    else if lead in leads && leads[lead].inTable && leads[lead].succeededRequest.Some? then
      Item(NotSubmitted, "already_submitted")
    else Item(NotSubmitted, "candidate_state_changed")
  }

  predicate NoRepeats(leads: seq<LeadId>) {
    forall i, j :: 0 <= i < j < |leads| ==> leads[i] != leads[j]
  }

  /** The database part of `submit_incomplete_retry`: which selected leads were never created, and why not the others. */
  method SortOut(selected: seq<LeadId>, request: string, leads: map<LeadId, LeadFacts>)
    returns (eligibleLeads: seq<LeadId>, reasons: map<LeadId, string>)
    requires NoRepeats(selected)
    ensures NoRepeats(eligibleLeads)
    ensures forall lead :: lead in eligibleLeads <==> lead in selected && IsUncreated(lead, leads)
    ensures forall lead :: lead in reasons <==> lead in selected && !IsUncreated(lead, leads)
    ensures forall lead :: lead in reasons ==> reasons[lead] == EarlyReason(lead, leads, request)
  {
    eligibleLeads, reasons := [], map[];
    for k := 0 to |selected|
      invariant NoRepeats(eligibleLeads)
      invariant forall lead :: lead in eligibleLeads <==> lead in selected[..k] && IsUncreated(lead, leads)
      invariant forall lead :: lead in reasons <==> lead in selected[..k] && !IsUncreated(lead, leads)
      invariant forall lead :: lead in reasons ==> reasons[lead] == EarlyReason(lead, leads, request)
    {
      var leadId := selected[k];
      assert leadId !in selected[..k];
      if leadId !in leads || !leads[leadId].inTable {
        reasons := reasons[leadId := "candidate_state_changed"];
      } else if leads[leadId].succeededRequest.Some? {
        reasons := reasons[leadId :=
          if leads[leadId].succeededRequest.value == request then "request_succeeded" else "already_submitted"];
      } else {
        eligibleLeads := eligibleLeads + [leadId];
      }
    }
  }

  /** The table part: only rows that are still open and own stay eligible. */
  method ReadBack(eligibleLeads: seq<LeadId>, openRows: set<LeadId>, early: map<LeadId, string>)
    returns (eligible: seq<LeadId>, reasons: map<LeadId, string>)
    requires NoRepeats(eligibleLeads) && forall lead :: lead in early ==> lead !in eligibleLeads
    ensures NoRepeats(eligible)
    ensures forall lead :: lead in eligible <==> lead in eligibleLeads && lead in openRows
    ensures forall lead :: lead in reasons <==> lead in early || (lead in eligibleLeads && lead !in openRows)
    ensures forall lead :: lead in reasons ==>
              reasons[lead] == if lead in early then early[lead] else "candidate_state_changed"
  {
    eligible, reasons := [], early;
    for k := 0 to |eligibleLeads|
      invariant NoRepeats(eligible)
      invariant forall lead :: lead in eligible <==> lead in eligibleLeads[..k] && lead in openRows
      invariant forall lead :: lead in reasons <==> lead in early || (lead in eligibleLeads[..k] && lead !in openRows)
      invariant forall lead :: lead in reasons ==>
                  reasons[lead] == if lead in early then early[lead] else "candidate_state_changed"
    {
      var leadId := eligibleLeads[k];
      if leadId in openRows {
        eligible := eligible + [leadId];
      } else {
        assert leadId in eligibleLeads;
        reasons := reasons[leadId := "candidate_state_changed"];
      }
    }
  }

  /**
    `submit_incomplete_retry`: every selected lead gets exactly one item, and a create is run once for exactly
    those leads that are in the table, not yet created in CRM, and still open and own in the table.
  */
  method SubmitIncompleteRetry(
    selectedLeadIds: seq<LeadId>, request: string, leads: map<LeadId, LeadFacts>, openRows: set<LeadId>,
    outcomes: LeadId -> Item)
    returns (created: seq<LeadId>, items: Items)
    ensures forall lead :: lead in items <==> lead in selectedLeadIds
    ensures forall lead :: lead in items ==> items[lead] == ItemFor(lead, request, leads, openRows, outcomes)
    ensures NoRepeats(created)
    ensures forall lead :: lead in created <==> lead in selectedLeadIds && MayCreate(lead, leads, openRows)
  {
    var selected := Distinct(selectedLeadIds);
    var eligibleLeads, early := SortOut(selected, request, leads);
    var eligible, reasons := ReadBack(eligibleLeads, openRows, early);
    created := eligible;
    items := Collect(selected, eligible, reasons, outcomes);
  }

  /** The item of one selected lead, from what was found out about it. */
  function CollectedItem(lead: LeadId, eligible: seq<LeadId>, reasons: map<LeadId, string>, outcomes: LeadId -> Item): Item {
    if lead in eligible then outcomes(lead)
    else if lead in reasons && reasons[lead] == "request_succeeded" then Item(Created, "")
    else Item(NotSubmitted, if lead in reasons then reasons[lead] else "candidate_state_changed")
  }

  /** The result part: one item per selected lead. */
  method Collect(selected: seq<LeadId>, eligible: seq<LeadId>, reasons: map<LeadId, string>, outcomes: LeadId -> Item)
    returns (items: Items)
    ensures forall lead :: lead in items <==> lead in selected
    ensures forall lead :: lead in items ==> items[lead] == CollectedItem(lead, eligible, reasons, outcomes)
  {
    items := map[];
    for k := 0 to |selected|
      invariant forall lead :: lead in items <==> lead in selected[..k]
      invariant forall lead :: lead in items ==> items[lead] == CollectedItem(lead, eligible, reasons, outcomes)
    {
      var leadId := selected[k];
      var item;
      if leadId in eligible {
        item := outcomes(leadId);
      } else if leadId in reasons && reasons[leadId] == "request_succeeded" {
        item := Item(Created, "");
      } else {
        item := Item(NotSubmitted, if leadId in reasons then reasons[leadId] else "candidate_state_changed");
      }
      items := items[leadId := item];
    }
  }

  function EarlyReason(lead: LeadId, leads: map<LeadId, LeadFacts>, request: string): string {
    if lead !in leads || !leads[lead].inTable then "candidate_state_changed"
    else if leads[lead].succeededRequest == Some(request) then "request_succeeded"
    else "already_submitted"
  }

  /** `dict.fromkeys`: the first of each, in order. */
  function Distinct(leads: seq<LeadId>): (r: seq<LeadId>)
    ensures NoRepeats(r) && forall lead :: lead in r <==> lead in leads
  {
    if leads == [] then []
    else
      var front, last := Distinct(leads[..|leads| - 1]), leads[|leads| - 1];
      assert leads == leads[..|leads| - 1] + [last];
      if last in front then front else front + [last]
  }

  /**
    What a selected lead is told: this request's own success is reported as created, another request's success as
    already submitted, a lead whose row is gone or taken as changed; only the rest reports a create that was run.
  */
  lemma ItemsTellTheTruth(
    lead: LeadId, request: string, leads: map<LeadId, LeadFacts>, openRows: set<LeadId>, outcomes: LeadId -> Item)
    ensures var item := ItemFor(lead, request, leads, openRows, outcomes);
            var known := lead in leads && leads[lead].inTable;
            && (known && leads[lead].succeededRequest == Some(request) ==> item.status == Created)
            && (known && leads[lead].succeededRequest.Some? && leads[lead].succeededRequest != Some(request) ==>
                  item == Item(NotSubmitted, "already_submitted"))
            && (!known || (leads[lead].succeededRequest.None? && lead !in openRows) ==>
                  item == Item(NotSubmitted, "candidate_state_changed"))
            && (known && leads[lead].succeededRequest.None? && lead in openRows ==> item == outcomes(lead))
  {
  }
}
