/**
  The command over whole runs: replays one after another, with crashes between their transactions, failures, and
  a sender that takes queued messages. One replay runs at a time, as the salesperson's session lock and the
  one-shot claim of the event ensure (`LeadOutboxRuns.OneConsumerAtATime`, `LeadOutboxRuns.OneWorkerPerEvent`).
*/
module ResubmissionRuns {
  import opened Common
  import opened Resubmission

  /** What a running replay holds in memory: read by the first transaction, or with the service's answer. */
  datatype Replay = Prepared(targets: seq<LeadId>, items: Items) | Answered(targets: seq<LeadId>, items: Items)

  datatype World = World(db: Db, replay: Option<Replay>, calls: seq<seq<LeadId>>, registered: seq<Phase>)

  datatype Step =
    | StartStep(targets: seq<LeadId>, labels: map<LeadId, string>)
    | ServiceStep(answers: Items)
    | SettleStep(reply: string, pieces: seq<string>)
    | FailStep(retryCount: nat, reply: string)
    | CrashStep
    | ClaimStep
    | SendNoticeStep
    | SendChunkStep(key: ChunkKey)

  /** The service answers for exactly the leads it was given (see `Resubmission.SubmitIncompleteRetry`). */
  ghost predicate Enabled(w: World, step: Step) {
    match step
    case StartStep(_, _) => w.replay.None?
    case ServiceStep(answers) =>
      && w.replay.Some? && w.replay.value.Prepared? && w.replay.value.targets != []
      && forall lead :: lead in answers <==> lead in RetryTargets(w.replay.value.targets, w.replay.value.items)
    case SettleStep(_, pieces) =>
      w.replay.Some? && (w.replay.value.Answered? || w.replay.value.targets == []) && pieces != []
    case _ => true
  }

  predicate IsFinished(db: Db) {
    db.notice.Some? && db.notice.value.payload.finished
  }

  function Started(w: World, targets: seq<LeadId>, labels: map<LeadId, string>): World {
    var db := Frozen(w.db, targets, labels);
    var payload := db.notice.value.payload;
    w.(db := db, replay := if payload.finished then None else Some(Prepared(payload.targets, payload.items)))
  }

  function Taken(w: World, step: Step): World
    requires step.SendNoticeStep? || step.SendChunkStep?
  {
    match step
    case SendNoticeStep =>
      if w.db.notice.Some? && w.db.notice.value.status == Pending
      then w.(db := w.db.(notice := Some(w.db.notice.value.(status := NoticeStatus.Taken)))) else w
    case SendChunkStep(key) =>
      if key in w.db.chunks
      then w.(db := w.db.(chunks := w.db.chunks[key := w.db.chunks[key].(status := NoticeStatus.Taken)])) else w
  }

  function SettledWorld(w: World, reply: string, pieces: seq<string>): World
    requires w.replay.Some? && pieces != []
  {
    if w.db.notice.None? then w
    else
      var replay := w.replay.value;
      var pending := AnyOpen(replay.targets, replay.items);
      w.(db := Settled(w.db, pending, replay.items, reply, pieces),
         replay := None,
         registered := if Registers(w.db.notice.value, pending)
                       then w.registered + [PhaseOf(w.db.notice.value, pending)] else w.registered)
  }

  function Apply(w: World, step: Step): World
    requires Enabled(w, step)
  {
    match step
    case StartStep(targets, labels) => Started(w, targets, labels)
    case ServiceStep(answers) =>
      var Prepared(targets, items) := w.replay.value;
      w.(replay := Some(Answered(targets, items + answers)), calls := w.calls + [RetryTargets(targets, items)])
    case SettleStep(reply, pieces) => SettledWorld(w, reply, pieces)
    case FailStep(retryCount, reply) => w.(db := FailureRecorded(w.db, retryCount, reply), replay := None)
    case CrashStep => w.(replay := None)
    case ClaimStep => w.(db := w.db.(event := EventProcessing))
    case _ => Taken(w, step)
  }

  ghost predicate IsRun(w: World, steps: seq<Step>)
    decreases |steps|, 0
  {
    steps == [] ||
    (IsRun(w, steps[..|steps| - 1]) && Enabled(Run(w, steps[..|steps| - 1]), steps[|steps| - 1]))
  }

  ghost function Run(w: World, steps: seq<Step>): World
    requires IsRun(w, steps)
    decreases |steps|, 1
  {
    if steps == [] then w else Apply(Run(w, steps[..|steps| - 1]), steps[|steps| - 1])
  }

  /** The command as it arrives: nothing frozen, called or registered. */
  predicate Init(w: World) {
    w == World(Db(EventProcessing, 0, None, map[], None), None, [], [])
  }

  // ---------- the invariant ----------

  /** Saved results are about targets; once a reply was written, about all of them, and open exactly while awaiting. */
  ghost predicate PayloadOk(p: Payload) {
    && (forall lead :: lead in p.items ==> lead in p.targets)
    && (p.reply.None? ==> p.items == map[] && !p.awaiting && !p.finished)
    && (p.reply.Some? ==> p.finished == !p.awaiting)
    && (p.reply.Some? ==> forall lead :: lead in p.targets ==> lead in p.items)
    && (p.reply.Some? ==> p.awaiting == AnyOpen(p.targets, p.items))
  }

  ghost predicate RegisteredOk(w: World) {
    if w.db.notice.None? then w.registered == []
    else
      var notice := w.db.notice.value;
      && (notice.status == Preparing <==> w.registered == [])
      && (notice.payload.reply.Some? <==> w.registered != [])
      && (notice.payload.awaiting ==> w.registered == [Initial])
      && (w.registered == [] || w.registered == [Initial] || w.registered == [Initial, Final])
  }

  /** A running replay works on the frozen targets of an unfinished command, from the results saved now. */
  ghost predicate ReplayOk(w: World) {
    w.replay.Some? ==>
      && w.db.notice.Some? && !w.db.notice.value.payload.finished
      && w.replay.value.targets == w.db.notice.value.payload.targets
      && (w.replay.value.Prepared? ==> w.replay.value.items == w.db.notice.value.payload.items)
      && (w.replay.value.Answered? ==> Extends(w.replay.value.items, w.db.notice.value.payload))
  }

  /** An answer keeps every settled result and has a result for every target. */
  ghost predicate Extends(items: Items, p: Payload) {
    && (forall lead :: lead in items <==> lead in p.targets)
    && forall lead :: lead in p.items && !IsOpen(p.items[lead]) ==> lead in items && items[lead] == p.items[lead]
  }

  /** A succeeded event belongs to a finished command. */
  predicate EventOk(db: Db) {
    db.event == EventSucceeded ==> db.notice.Some? && db.notice.value.payload.finished
  }

  ghost predicate WorldOk(w: World) {
    && EventOk(w.db)
    && (w.db.notice.Some? ==> PayloadOk(w.db.notice.value.payload))
    && RegisteredOk(w) && ReplayOk(w)
    && (w.db.notice.None? ==> w.calls == [] && w.db.chunks == map[])
    && forall key :: key in w.db.chunks ==> key.phase in w.registered
  }

  lemma AnswerExtends(p: Payload, answers: Items)
    requires PayloadOk(p) && forall lead :: lead in answers <==> lead in RetryTargets(p.targets, p.items)
    ensures Extends(p.items + answers, p)
  {
  }

  lemma SettledChunksAreRegistered(w: World, reply: string, pieces: seq<string>)
    requires w.replay.Some? && pieces != [] && forall key :: key in w.db.chunks ==> key.phase in w.registered
    ensures var after := SettledWorld(w, reply, pieces);
            forall key :: key in after.db.chunks ==> key.phase in after.registered
  {
    if w.db.notice.Some? {
      var phase := PhaseOf(w.db.notice.value, AnyOpen(w.replay.value.targets, w.replay.value.items));
      ChunksAreOfPhase(w.db.chunks, phase, pieces);
    }
  }

  lemma {:induction false} ChunksAreOfPhase(chunks: map<ChunkKey, Chunk>, phase: Phase, pieces: seq<string>)
    ensures forall key :: key in WithChunks(chunks, phase, pieces) ==> key in chunks || key.phase == phase
  {
    if pieces != [] {
      ChunksAreOfPhase(chunks, phase, pieces[..|pieces| - 1]);
    }
  }

  lemma StepKeepsWorld(w: World, step: Step)
    requires WorldOk(w) && Enabled(w, step)
    ensures WorldOk(Apply(w, step))
  {
    match step
    case ServiceStep(answers) =>
      AnswerExtends(w.db.notice.value.payload, answers);
    case SettleStep(reply, pieces) =>
      var replay := w.replay.value;
      assert replay.targets == [] ==> !AnyOpen(replay.targets, replay.items);
      assert PayloadOk(Apply(w, step).db.notice.value.payload);
      assert [Initial] + [Final] == [Initial, Final];
      SettledChunksAreRegistered(w, reply, pieces);
    case _ =>
  }

  lemma {:induction false} RunKeepsWorld(w: World, steps: seq<Step>)
    requires WorldOk(w) && IsRun(w, steps)
    ensures WorldOk(Run(w, steps))
  {
    if steps != [] {
      RunKeepsWorld(w, steps[..|steps| - 1]);
      StepKeepsWorld(Run(w, steps[..|steps| - 1]), steps[|steps| - 1]);
    }
  }

  lemma RunIsOk(w: World, steps: seq<Step>)
    requires Init(w) && IsRun(w, steps)
    ensures WorldOk(Run(w, steps))
  {
    RunKeepsWorld(w, steps);
  }

  // ---------- what every run promises ----------

  /** The target list is frozen by the first replay: later candidates never replace it. */
  lemma {:induction false} TargetsAreFrozen(w: World, more: seq<Step>)
    requires w.db.notice.Some? && IsRun(w, more)
    ensures Run(w, more).db.notice.Some?
    ensures Run(w, more).db.notice.value.payload.targets == w.db.notice.value.payload.targets
    ensures Run(w, more).db.notice.value.payload.labels == w.db.notice.value.payload.labels
  {
    if more != [] {
      TargetsAreFrozen(w, more[..|more| - 1]);
    }
  }

  predicate IsSavedAs(w: World, lead: LeadId, item: Item) {
    && w.db.notice.Some? && lead in w.db.notice.value.payload.items
    && w.db.notice.value.payload.items[lead] == item
  }

  /** A saved terminal result of a lead is never overwritten. */
  lemma {:induction false} TerminalResultsStay(w: World, more: seq<Step>, lead: LeadId, item: Item)
    requires WorldOk(w) && IsRun(w, more) && IsSavedAs(w, lead, item) && !IsOpen(item)
    ensures IsSavedAs(Run(w, more), lead, item)
  {
    if more != [] {
      var front, last := more[..|more| - 1], more[|more| - 1];
      RunKeepsWorld(w, front);
      TerminalResultsStay(w, front, lead, item);
      var mid := Run(w, front);
      assert last.SettleStep? ==> mid.replay.value.targets != [];
    }
  }

  /** The service is called for unresolved targets only, and never for nothing. */
  lemma OnlyUnresolvedAreCalled(w0: World, steps: seq<Step>, answers: Items)
    requires Init(w0) && IsRun(w0, steps) && Enabled(Run(w0, steps), ServiceStep(answers))
    ensures Run(w0, steps).db.notice.Some?
    ensures |Apply(Run(w0, steps), ServiceStep(answers)).calls| == |Run(w0, steps).calls| + 1
    ensures var w := Run(w0, steps);
            var payload := w.db.notice.value.payload;
            var called := Apply(w, ServiceStep(answers)).calls[|w.calls|];
            && !payload.finished && called != []
            && forall lead :: lead in called <==>
                 lead in payload.targets && (lead in payload.items ==> IsOpen(payload.items[lead]))
  {
    RunIsOk(w0, steps);
    var w := Run(w0, steps);
    var payload := w.db.notice.value.payload;
    if payload.reply.Some? {
      var k :| 0 <= k < |payload.targets| && payload.targets[k] in payload.items && IsOpen(payload.items[payload.targets[k]]);
      assert payload.targets[k] in RetryTargets(payload.targets, payload.items);
    } else {
      assert payload.targets[0] in RetryTargets(payload.targets, payload.items);
    }
  }

  /** A finished command calls the service no more, and its reply, results and messages are final. */
  lemma {:induction false} FinishedCommandIsQuiet(w: World, more: seq<Step>)
    requires WorldOk(w) && IsRun(w, more) && IsFinished(w.db)
    ensures var later := Run(w, more);
            && IsFinished(later.db) && later.db.notice.value.payload == w.db.notice.value.payload
            && later.calls == w.calls && later.registered == w.registered && later.replay.None?
  {
    if more != [] {
      var front := more[..|more| - 1];
      RunKeepsWorld(w, front);
      FinishedCommandIsQuiet(w, front);
    }
  }

  function Count(phases: seq<Phase>, phase: Phase): nat {
    multiset(phases)[phase]
  }

  /** Progress and final messages are registered at most once each, and the final ones only after the others. */
  lemma NoticesRegisteredOnce(w0: World, steps: seq<Step>)
    requires Init(w0) && IsRun(w0, steps)
    ensures var w := Run(w0, steps);
            && Count(w.registered, Initial) <= 1 && Count(w.registered, Final) <= 1
            && (Final in w.registered ==> w.registered == [Initial, Final] && IsFinished(w.db))
            && (IsFinished(w.db) ==> Initial in w.registered)
  {
    RunIsOk(w0, steps);
    var w := Run(w0, steps);
    assert Count([Initial], Initial) == 1 && Count([Initial], Final) == 0;
    assert multiset([Initial, Final])[Initial] == 1 && multiset([Initial, Final])[Final] == 1;
  }

  /** A queued message is never re-queued or reworded: once it is there its text stays, and once taken it stays taken. */
  lemma {:induction false} ChunksAreQueuedOnce(w: World, more: seq<Step>, key: ChunkKey)
    requires IsRun(w, more) && key in w.db.chunks
    ensures key in Run(w, more).db.chunks
    ensures Run(w, more).db.chunks[key].content == w.db.chunks[key].content
    ensures w.db.chunks[key].status == NoticeStatus.Taken ==> Run(w, more).db.chunks[key].status == NoticeStatus.Taken
  {
    if more != [] {
      var front, last := more[..|more| - 1], more[|more| - 1];
      ChunksAreQueuedOnce(w, front, key);
      var mid := Run(w, front);
      if last.SettleStep? && mid.db.notice.Some? {
        ChunksAreKept(
          mid.db.chunks, PhaseOf(mid.db.notice.value, AnyOpen(mid.replay.value.targets, mid.replay.value.items)),
          last.pieces, key);
      }
    }
  }

  lemma {:induction false} ChunksAreKept(chunks: map<ChunkKey, Chunk>, phase: Phase, pieces: seq<string>, key: ChunkKey)
    requires key in chunks
    ensures key in WithChunks(chunks, phase, pieces) && WithChunks(chunks, phase, pieces)[key] == chunks[key]
  {
    if pieces != [] {
      ChunksAreKept(chunks, phase, pieces[..|pieces| - 1], key);
    }
  }

  /** Likewise the frozen notice: it becomes pending once, and is never reset. */
  lemma {:induction false} NoticeIsQueuedOnce(w: World, more: seq<Step>)
    requires IsRun(w, more) && w.db.notice.Some? && w.db.notice.value.status != Preparing
    ensures Run(w, more).db.notice.Some? && Run(w, more).db.notice.value.status != Preparing
    ensures Run(w, more).db.notice.value.content == w.db.notice.value.content
    ensures w.db.notice.value.status == NoticeStatus.Taken ==> Run(w, more).db.notice.value.status == NoticeStatus.Taken
  {
    if more != [] {
      NoticeIsQueuedOnce(w, more[..|more| - 1]);
    }
  }

  /** The piece of a reply as it waits in the queue; the first initial piece is the notice itself. */
  predicate IsQueued(db: Db, key: ChunkKey, piece: string) {
    if key == NOTICE_KEY
    then db.notice.Some? && db.notice.value.status == Pending && db.notice.value.content == piece
    else key in db.chunks && db.chunks[key] == Chunk(Pending, piece)
  }

  /** Whenever a reachable world registers a reply, every piece of it is queued under its own key. */
  lemma EveryPieceIsQueued(w0: World, steps: seq<Step>, reply: string, pieces: seq<string>, index: nat)
    requires Init(w0) && IsRun(w0, steps) && Enabled(Run(w0, steps), SettleStep(reply, pieces)) && index < |pieces|
    requires |Apply(Run(w0, steps), SettleStep(reply, pieces)).registered| > |Run(w0, steps).registered|
    ensures var after := Apply(Run(w0, steps), SettleStep(reply, pieces));
            IsQueued(after.db, ChunkKey(after.registered[|after.registered| - 1], index), pieces[index])
  {
    RunIsOk(w0, steps);
    var w := Run(w0, steps);
    var replay := w.replay.value;
    var phase := PhaseOf(w.db.notice.value, AnyOpen(replay.targets, replay.items));
    assert Apply(w, SettleStep(reply, pieces)).registered == w.registered + [phase];
    assert phase !in w.registered;
    if ChunkKey(phase, index) != NOTICE_KEY {
      NewPieceIsQueued(w.db.chunks, phase, pieces, index);
    }
  }

  lemma {:induction false} NewPieceIsQueued(chunks: map<ChunkKey, Chunk>, phase: Phase, pieces: seq<string>, index: nat)
    requires index < |pieces| && ChunkKey(phase, index) != NOTICE_KEY
    requires forall i :: 0 <= i < |pieces| ==> ChunkKey(phase, i) !in chunks
    ensures ChunkKey(phase, index) in WithChunks(chunks, phase, pieces)
    ensures WithChunks(chunks, phase, pieces)[ChunkKey(phase, index)] == Chunk(Pending, pieces[index])
  {
    var front := pieces[..|pieces| - 1];
    NoNewKeyBeyond(chunks, phase, front, |front|);
    if index < |front| {
      NewPieceIsQueued(chunks, phase, front, index);
    }
  }

  lemma {:induction false} NoNewKeyBeyond(chunks: map<ChunkKey, Chunk>, phase: Phase, pieces: seq<string>, index: nat)
    requires ChunkKey(phase, index) !in chunks && |pieces| <= index
    ensures ChunkKey(phase, index) !in WithChunks(chunks, phase, pieces)
  {
    if pieces != [] {
      NoNewKeyBeyond(chunks, phase, pieces[..|pieces| - 1], index);
    }
  }

  /** The terminal failure message is written at most once and never changed. */
  lemma {:induction false} TerminalNoticeStays(w: World, more: seq<Step>)
    requires IsRun(w, more) && w.db.terminal.Some?
    ensures Run(w, more).db.terminal == w.db.terminal
  {
    if more != [] {
      TerminalNoticeStays(w, more[..|more| - 1]);
    }
  }

  predicate AllFailuresUse(steps: seq<Step>, retryCount: nat) {
    forall k :: 0 <= k < |steps| && steps[k].FailStep? ==> steps[k].retryCount == retryCount
  }

  lemma StepCountsFailures(w: World, step: Step)
    requires Enabled(w, step)
    ensures Apply(w, step).db.attempts == w.db.attempts + if step.FailStep? then 1 else 0
    ensures Apply(w, step).db.terminal.Some? <==>
              w.db.terminal.Some? || (step.FailStep? && w.db.attempts + 1 > step.retryCount)
  {
  }

  /** The command fails for good exactly when more failures were recorded than retries are configured. */
  lemma {:induction false} FailsAfterItsRetries(w0: World, steps: seq<Step>, retryCount: nat)
    requires Init(w0) && IsRun(w0, steps) && AllFailuresUse(steps, retryCount)
    ensures Run(w0, steps).db.terminal.Some? <==> Run(w0, steps).db.attempts > retryCount
  {
    if steps != [] {
      var front := steps[..|steps| - 1];
      assert forall k :: 0 <= k < |front| ==> front[k] == steps[k];
      FailsAfterItsRetries(w0, front, retryCount);
      StepCountsFailures(Run(w0, front), steps[|steps| - 1]);
    }
  }

  // ---------- overlapping replays ----------

  /** All terminal results of `saved` are among the results written. */
  ghost predicate KeepsTerminal(saved: Items, written: Items) {
    forall lead :: lead in saved && !IsOpen(saved[lead]) ==> lead in written && written[lead] == saved[lead]
  }

  ghost predicate AnswersAll(answers: Items, selected: seq<LeadId>) {
    forall lead :: lead in answers <==> lead in selected
  }

  /**
    A replay that read the results `read` writes back when `saved` are stored, because another replay settled in
    between. Whatever the service answers, it keeps all saved terminal results if and only if none of the targets it
    selected has got a terminal result meanwhile.
  */
  lemma OverlapIsHarmlessIff(db: Db, targets: seq<LeadId>, read: Items, saved: Items)
    requires db.notice.Some? && db.notice.value.payload.items == saved
    requires KeepsTerminal(read, saved) && forall lead :: lead in saved ==> lead in targets
    ensures (forall answers | AnswersAll(answers, RetryTargets(targets, read)) ::
               KeepsTerminal(saved, read + answers)) <==>
            (forall lead :: lead in RetryTargets(targets, read) && lead in saved ==> IsOpen(saved[lead]))
  {
    var selected := RetryTargets(targets, read);
    if forall lead :: lead in selected && lead in saved ==> IsOpen(saved[lead]) {
      forall answers | AnswersAll(answers, selected)
        ensures KeepsTerminal(saved, read + answers)
      {
      }
    } else {
      var answers: Items := map lead | lead in selected :: Item(Retrying, "");
      assert AnswersAll(answers, selected);
      var lead :| lead in selected && lead in saved && !IsOpen(saved[lead]);
      assert (read + answers)[lead] != saved[lead];
    }
  }

  /**
    Why one replay at a time: of two overlapping replays the slower one writes back what it read before, and a
    saved terminal result is lost.
  */
  lemma OverlapLosesResults()
    ensures var created, busy := Item(Created, ""), Item(ItemStatus.Processing, "");
            var db := Frozen(Db(EventProcessing, 0, None, map[], None), [1], map[1 := "a"]);
            var first := Settled(db, false, map[1 := created], "done", ["done"]);
            var second := Settled(first, true, map[1 := busy], "wait", ["wait"]);
            && RetryTargets([1], db.notice.value.payload.items) == [1]
            && IsFinished(first) && first.notice.value.payload.items[1] == created
            && !IsFinished(second) && second.notice.value.payload.items[1] == busy
  {
    assert [1][..0] == [];
    assert RetryTargets([1], map[]) == RetryTargets([], map[]) + [1];
  }

  // ---------- the event of the command ----------

  /** In every reachable world a succeeded event means a finished command; one that owes a final reply stays open. */
  lemma SucceededMeansFinished(w0: World, steps: seq<Step>)
    requires Init(w0) && IsRun(w0, steps)
    ensures var db := Run(w0, steps).db;
            && (db.event == EventSucceeded ==> IsFinished(db))
            && (db.notice.Some? && db.notice.value.payload.awaiting ==> db.event != EventSucceeded)
  {
    RunIsOk(w0, steps);
  }

  /** The second transaction lets the event succeed if and only if no target is open, and otherwise has it retried. */
  lemma SettleEndsEventIff(w0: World, steps: seq<Step>, reply: string, pieces: seq<string>)
    requires Init(w0) && IsRun(w0, steps) && Enabled(Run(w0, steps), SettleStep(reply, pieces))
    ensures var w := Run(w0, steps); var after := Apply(w, SettleStep(reply, pieces)).db;
            && (after.event == EventSucceeded <==>
                  forall lead :: lead in w.replay.value.targets && lead in w.replay.value.items ==>
                    w.replay.value.items[lead].status !in {Retrying, ItemStatus.Processing})
            && (after.event != EventSucceeded ==> after.event == EventRetrying)
            && after.notice.Some? && after.notice.value.payload.reply == Some(reply)
            && after.notice.value.payload.items == w.replay.value.items
            && (after.event == EventSucceeded <==> after.notice.value.payload.finished)
            && after.attempts == w.db.attempts && after.terminal == w.db.terminal
  {
    RunIsOk(w0, steps);
    var replay := Run(w0, steps).replay.value;
    forall lead | lead in replay.targets && lead in replay.items && IsOpen(replay.items[lead])
      ensures AnyOpen(replay.targets, replay.items)
    {
      var k :| 0 <= k < |replay.targets| && replay.targets[k] == lead;
    }
  }

  /** A failure has the command retried exactly while the failures are within the configured retries. */
  lemma FailureRetriesIff(w: World, retryCount: nat, reply: string)
    ensures var after := Apply(w, FailStep(retryCount, reply)).db;
            && after.attempts == w.db.attempts + 1 && after.notice == w.db.notice && after.chunks == w.db.chunks
            && (after.event == EventRetrying <==> after.attempts <= retryCount)
            && (after.event != EventRetrying ==> after.event == EventFailed && after.terminal.Some?)
            && (after.event == EventRetrying ==> after.terminal == w.db.terminal)
  {
  }

  /** The first replay freezes exactly the targets and labels it found, and prepares its notice; nothing is sent yet. */
  lemma FirstStartFreezes(w: World, targets: seq<LeadId>, labels: map<LeadId, string>)
    requires w.db.notice.None? && w.replay.None?
    ensures var after := Apply(w, StartStep(targets, labels));
            && after.db.notice.Some? && after.db.notice.value.status == Preparing
            && after.db.notice.value.payload.targets == targets && after.db.notice.value.payload.labels == labels
            && after.replay == Some(Prepared(targets, map[]))
            && after.db.event == w.db.event && after.db.chunks == w.db.chunks && after.calls == w.calls
  {
  }
}
