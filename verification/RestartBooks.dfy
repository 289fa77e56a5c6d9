/** The campaign file and the ledger in every run: each transaction is closed once, the history
    holds the newest fifty closures, the counter counts the absorbed ones, a task has one row. */
module RestartBooks {
  import opened Options
  import opened RestartDecisions
  import opened RestartProtocol
  import opened RestartInvariants

  // ---- closing ----

  function ClosedTxs(closed: seq<Closure>): (txs: seq<Tx>)
    ensures |txs| == |closed|
    ensures forall i :: 0 <= i < |txs| ==> txs[i] == closed[i].tx
  {
    if closed == [] then [] else ClosedTxs(closed[..|closed| - 1]) + [closed[|closed| - 1].tx]
  }

  function AbsorbedCount(closed: seq<Closure>): nat {
    if closed == [] then 0
    else AbsorbedCount(closed[..|closed| - 1]) + (if closed[|closed| - 1].tx.outcome.Absorbed? then 1 else 0)
  }

  ghost predicate ClosedOnce(memory: Memory) {
    && (forall i :: 0 <= i < |memory.closed| ==>
          var tx := memory.closed[i].tx;
          tx.id in memory.txIds && tx.taskId in memory.taskIds && tx.taskId != "")
    && (forall i, j :: 0 <= i < j < |memory.closed| ==>
          memory.closed[i].tx.id != memory.closed[j].tx.id && memory.closed[i].tx.taskId != memory.closed[j].tx.taskId)
  }

  ghost predicate ActiveIsNew(campaign: Campaign, memory: Memory) {
    campaign.active.Some? ==>
      var tx := campaign.active.value;
      && Fresh(tx) && tx.taskId != "" && tx.id in memory.txIds && tx.taskId in memory.taskIds
      && forall i :: 0 <= i < |memory.closed| ==>
           memory.closed[i].tx.id != tx.id && memory.closed[i].tx.taskId != tx.taskId
  }

  ghost predicate CampaignInv(campaign: Campaign, memory: Memory) {
    && ClosedOnce(memory)
    && ActiveIsNew(campaign, memory)
    && campaign.history == LastOf(ClosedTxs(memory.closed), HISTORY_LIMIT)
    && campaign.absorbedDone == AbsorbedCount(memory.closed)
  }

  lemma LastOfLonger<T>(items: seq<T>, last: T, limit: nat)
    requires limit > 0
    ensures LastOf(LastOf(items, limit) + [last], limit) == LastOf(items + [last], limit)
  {
  }

  /** Nothing is closed: the ids, the history and the count stand. */
  lemma KeptKeeps(before: Campaign, after: Campaign, memory: Memory)
    requires CampaignInv(before, memory)
    requires after.history == before.history && after.absorbedDone == before.absorbedDone
    requires after.active.Some? ==> before.active.Some? && Fresh(after.active.value)
    requires after.active.Some? ==> after.active.value.id == before.active.value.id
    requires after.active.Some? ==> after.active.value.taskId == before.active.value.taskId
    ensures CampaignInv(after, memory)
  {
  }

  /** The active transaction is closed: it is appended, and counted when it is absorbed. */
  lemma ClosingKeeps(before: Campaign, after: Campaign, memory: Memory, closure: Closure)
    requires CampaignInv(before, memory) && before.active.Some? && after.active.None?
    requires closure.tx.id == before.active.value.id && closure.tx.taskId == before.active.value.taskId
    requires after.history == AppendUnique(before.history, closure.tx)
    requires after.absorbedDone == before.absorbedDone + (if closure.tx.outcome.Absorbed? then 1 else 0)
    ensures CampaignInv(after, memory.(closed := memory.closed + [closure]))
  {
    var txs := ClosedTxs(memory.closed);
    assert !Recorded(before.history, closure.tx.id) by {
      forall i | 0 <= i < |before.history| ensures before.history[i].id != closure.tx.id {
        assert before.history[i] in txs;
      }
    }
    LastOfLonger(txs, closure.tx, HISTORY_LIMIT);
    var longer := memory.closed + [closure];
    assert longer[..|longer| - 1] == memory.closed;
  }

  /** A locked write closes at most the active transaction, cleanly. */
  ghost predicate CleanStep(s: State, pid: Pid, decision: Decision) {
    && At(s, pid) && CleanWrite(s.books.campaign, s.workers[pid].boot.generation, decision)
    && (decision.closes.Some? && s.books.campaign.active.Some? ==>
          && decision.closes.value.id == s.books.campaign.active.value.id
          && decision.closes.value.taskId == s.books.campaign.active.value.taskId)
  }

  lemma WrittenKeepsCampaign(s: State, pid: Pid, decision: Decision, viaMarker: bool, facts: set<Fact>)
    requires CampaignInv(s.books.campaign, s.memory) && CleanStep(s, pid, decision)
    ensures CampaignInv(Written(s, pid, decision, viaMarker, facts).books.campaign,
      Written(s, pid, decision, viaMarker, facts).memory)
  {
    var t := Written(s, pid, decision, viaMarker, facts);
    var memory := s.memory.(facts := s.memory.facts + facts);
    assert CampaignInv(s.books.campaign, memory);
    match decision.closes
    case None =>
      assert t.memory == memory;
      KeptKeeps(s.books.campaign, t.books.campaign, memory);
    case Some(tx) =>
      var closure := Closure(tx, s.workers[pid].boot, viaMarker, ReceiptValid(s.books.campaign, tx));
      assert t.memory == memory.(closed := memory.closed + [closure]);
      ClosingKeeps(s.books.campaign, t.books.campaign, memory, closure);
  }

  lemma ReconciledIsClean(s: State, pid: Pid, reading: Reading)
    requires At(s, pid) && PhaseOf(s, pid).Reconciling? && LockInv(s) && CampaignInv(s.books.campaign, s.memory)
    ensures CleanStep(s, pid, Reconcile(PhaseOf(s, pid).copy, s.workers[pid].boot, PhaseOf(s, pid).snapshot, reading))
  {
    var phase, boot := PhaseOf(s, pid), s.workers[pid].boot;
    assert phase.copy == s.books.campaign;
    ReconcileWritesCleanly(phase.copy, boot, phase.snapshot, reading);
    if Reconcile(phase.copy, boot, phase.snapshot, reading).closes.Some? {
      ReconcileIsJustified(phase.copy, boot, phase.snapshot, reading);
    }
  }

  lemma MarkedIsClean(s: State, pid: Pid, reading: Reading, snapshot: Snapshot)
    requires At(s, pid) && PhaseOf(s, pid).Marking? && LockInv(s) && CampaignInv(s.books.campaign, s.memory)
    ensures CleanStep(s, pid, MarkVerified(PhaseOf(s, pid).copy, s.workers[pid].boot, PhaseOf(s, pid).marker, reading))
  {
    var phase, boot := PhaseOf(s, pid), s.workers[pid].boot;
    assert phase.copy == s.books.campaign;
    MarkWritesCleanly(phase.copy, boot, phase.marker, reading);
    if MarkVerified(phase.copy, boot, phase.marker, reading).closes.Some? {
      MarkIsJustified(phase.copy, boot, phase.marker, snapshot, reading);
    }
  }

  lemma CampaignOutside(s: State, action: Action)
    requires CampaignInv(s.books.campaign, s.memory) && NextOutside(s, action).Some?
    ensures CampaignInv(NextOutside(s, action).value.books.campaign, NextOutside(s, action).value.memory)
  {
    var t := NextOutside(s, action).value;
    if action.NextGeneration? {
      assert t.memory.closed == s.memory.closed;
    } else if action.RecordCommit? || action.SetStatus? || action.RestampByOwner? {
      KeptKeeps(s.books.campaign, t.books.campaign, s.memory);
    }
  }

  lemma CampaignClaiming(s: State, action: Action)
    requires NextClaiming(s, action).Some?
    ensures var t := NextClaiming(s, action).value; t.books.campaign == s.books.campaign && t.memory == s.memory
  {
  }

  lemma CampaignLocked(s: State, action: Action)
    requires LockInv(s) && CampaignInv(s.books.campaign, s.memory) && NextLocked(s, action).Some?
    ensures CampaignInv(NextLocked(s, action).value.books.campaign, NextLocked(s, action).value.memory)
  {
    match action
    case WriteReconciled(pid, reading, fails) =>
      if !fails {
        var phase, boot := PhaseOf(s, pid), s.workers[pid].boot;
        ReconciledIsClean(s, pid, reading);
        WrittenKeepsCampaign(s, pid, Reconcile(phase.copy, boot, phase.snapshot, reading), false,
                             Facts(boot, ActiveTask(phase.copy), reading));
      }
    case WriteMarked(pid, reading, fails) =>
      if !fails {
        var phase := PhaseOf(s, pid);
        MarkedIsClean(s, pid, reading, Snapshot("", false, "", None));
        WrittenKeepsCampaign(s, pid, MarkVerified(phase.copy, s.workers[pid].boot, phase.marker, reading), true, {});
      }
    case Snap(pid, contained, held) =>
      var t := NextLocked(s, action).value;
      assert t.memory.closed == s.memory.closed && t.memory.txIds == s.memory.txIds &&
        t.memory.taskIds == s.memory.taskIds;
      assert t.books == s.books;
    case _ =>
  }

  lemma CampaignStep(s: State, action: Action)
    requires LockInv(s) && CampaignInv(s.books.campaign, s.memory) && Next(s, action).Some?
    ensures CampaignInv(Next(s, action).value.books.campaign, Next(s, action).value.memory)
  {
    if NextOutside(s, action).Some? { CampaignOutside(s, action); }
    else if NextClaiming(s, action).Some? { CampaignClaiming(s, action); }
    else { CampaignLocked(s, action); }
  }

  // ---- the ledger ----

  ghost predicate Distinct(items: seq<string>) {
    forall i, j :: 0 <= i < j < |items| ==> items[i] != items[j]
  }

  /** Some closure resolved the task as absorbed or abandoned. */
  ghost predicate ResolvedTask(closed: seq<Closure>, taskId: string) {
    exists i :: 0 <= i < |closed| && closed[i].tx.taskId == taskId && !closed[i].tx.outcome.Open?
  }

  ghost predicate ResolvedIn(history: seq<Tx>, taskId: string) {
    exists i :: 0 <= i < |history| && Resolved(history[i]) && history[i].taskId == taskId
  }

  lemma ResolvedInLonger(history: seq<Tx>, taskId: string)
    requires history != []
    ensures var last := history[|history| - 1];
      ResolvedIn(history, taskId) <==>
        ResolvedIn(history[..|history| - 1], taskId) || (Resolved(last) && last.taskId == taskId)
  {
    var front := history[..|history| - 1];
    assert forall i :: 0 <= i < |front| ==> front[i] == history[i];
    if ResolvedIn(front, taskId) {
      var i :| 0 <= i < |front| && Resolved(front[i]) && front[i].taskId == taskId;
      assert Resolved(history[i]) && history[i].taskId == taskId;
    }
  }

  lemma {:induction false} MissingIsDistinct(history: seq<Tx>, tags: seq<string>)
    ensures Distinct(Missing(history, tags))
  {
    if history != [] { MissingIsDistinct(history[..|history| - 1], tags); }
  }

  lemma {:induction false} MissingHas(history: seq<Tx>, tags: seq<string>, taskId: string)
    ensures taskId in Missing(history, tags) <==> taskId !in tags && ResolvedIn(history, taskId)
  {
    if history != [] {
      MissingHas(history[..|history| - 1], tags, taskId);
      ResolvedInLonger(history, taskId);
    }
  }

  /** What the repair appends: each task that a transaction of the history resolved and that has
      no row, once. */
  lemma MissingMeans(history: seq<Tx>, tags: seq<string>)
    ensures Distinct(Missing(history, tags))
    ensures forall t :: t in Missing(history, tags) <==> t !in tags && ResolvedIn(history, t)
    ensures forall i :: 0 <= i < |history| && Resolved(history[i]) ==>
      history[i].taskId in tags || history[i].taskId in Missing(history, tags)
  {
    MissingIsDistinct(history, tags);
    forall t ensures t in Missing(history, tags) <==> t !in tags && ResolvedIn(history, t) {
      MissingHas(history, tags, t);
    }
    forall i | 0 <= i < |history| && Resolved(history[i])
      ensures history[i].taskId in tags || history[i].taskId in Missing(history, tags)
    {
      assert ResolvedIn(history, history[i].taskId);
    }
  }

  ghost predicate TagsAre(tags: seq<string>, closed: seq<Closure>) {
    Distinct(tags) && forall t :: t in tags ==> ResolvedTask(closed, t)
  }

  ghost predicate TaggingIsDue(tags: seq<string>, closed: seq<Closure>, phase: Phase) {
    phase.Tagging? ==> phase.taskId !in tags && ResolvedTask(closed, phase.taskId)
  }

  ghost predicate TagInv(s: State) {
    && TagsAre(s.books.tags, s.memory.closed)
    && (forall pid: Pid :: At(s, pid) ==> TaggingIsDue(s.books.tags, s.memory.closed, PhaseOf(s, pid)))
  }

  lemma HistoryIsClosed(campaign: Campaign, memory: Memory, i: nat)
    requires CampaignInv(campaign, memory) && i < |campaign.history| && Resolved(campaign.history[i])
    ensures ResolvedTask(memory.closed, campaign.history[i].taskId)
  {
    var txs := ClosedTxs(memory.closed);
    assert campaign.history[i] in txs;
    var k :| 0 <= k < |txs| && txs[k] == campaign.history[i];
    assert memory.closed[k].tx == campaign.history[i];
  }

  lemma BackfillKeepsTags(s: State, upto: nat)
    requires TagsAre(s.books.tags, s.memory.closed) && CampaignInv(s.books.campaign, s.memory)
    requires upto <= |Missing(s.books.campaign.history, s.books.tags)|
    ensures TagsAre(s.books.tags + Missing(s.books.campaign.history, s.books.tags)[..upto], s.memory.closed)
  {
    var history, tags := s.books.campaign.history, s.books.tags;
    var missing := Missing(history, tags);
    MissingMeans(history, tags);
    forall t | t in missing ensures ResolvedTask(s.memory.closed, t) {
      var i :| 0 <= i < |history| && Resolved(history[i]) && history[i].taskId == t;
      HistoryIsClosed(s.books.campaign, s.memory, i);
    }
    forall i, j | 0 <= i < j < |tags| + upto ensures (tags + missing[..upto])[i] != (tags + missing[..upto])[j] {
      if i < |tags| <= j { assert missing[j - |tags|] in missing; }
    }
  }

  lemma LongerStillResolves(closed: seq<Closure>, closure: Closure, taskId: string)
    requires ResolvedTask(closed, taskId)
    ensures ResolvedTask(closed + [closure], taskId)
  {
    var i :| 0 <= i < |closed| && closed[i].tx.taskId == taskId && !closed[i].tx.outcome.Open?;
    assert (closed + [closure])[i] == closed[i];
  }

  lemma WrittenKeepsTags(s: State, pid: Pid, decision: Decision, viaMarker: bool, facts: set<Fact>)
    requires TagInv(s) && CampaignInv(s.books.campaign, s.memory) && CleanStep(s, pid, decision)
    ensures TagInv(Written(s, pid, decision, viaMarker, facts))
  {
    var t := Written(s, pid, decision, viaMarker, facts);
    forall taskId | ResolvedTask(s.memory.closed, taskId) ensures ResolvedTask(t.memory.closed, taskId) {
      if decision.closes.Some? {
        LongerStillResolves(s.memory.closed, t.memory.closed[|s.memory.closed|], taskId);
      }
    }
    if decision.closes.Some? && !decision.closes.value.outcome.Open? {
      var tx := decision.closes.value;
      assert t.memory.closed[|s.memory.closed|].tx == tx;
      assert ResolvedTask(t.memory.closed, tx.taskId);
      assert !ResolvedTask(s.memory.closed, tx.taskId);
    }
    forall q: Pid | At(t, q) ensures TaggingIsDue(t.books.tags, t.memory.closed, PhaseOf(t, q)) {
      assert At(s, q) ==> TaggingIsDue(s.books.tags, s.memory.closed, PhaseOf(s, q));
    }
  }

  lemma TagWrites(s: State, action: Action)
    requires action.WriteReconciled? || action.WriteMarked?
    requires LockInv(s) && CampaignInv(s.books.campaign, s.memory) && TagInv(s) && NextLocked(s, action).Some?
    ensures TagInv(NextLocked(s, action).value)
  {
    var pid := action.pid;
    if action.fails {
      TagMoves(s, NextLocked(s, action).value);
    } else if action.WriteReconciled? {
      var phase, boot := PhaseOf(s, pid), s.workers[pid].boot;
      ReconciledIsClean(s, pid, action.reading);
      WrittenKeepsTags(s, pid, Reconcile(phase.copy, boot, phase.snapshot, action.reading), false,
                       Facts(boot, ActiveTask(phase.copy), action.reading));
    } else {
      var phase := PhaseOf(s, pid);
      MarkedIsClean(s, pid, action.reading, Snapshot("", false, "", None));
      WrittenKeepsTags(s, pid, MarkVerified(phase.copy, s.workers[pid].boot, phase.marker, action.reading), true, {});
    }
  }

  /** No row is added and nothing is closed, and no worker comes to a tag it had not to write. */
  lemma TagMoves(s: State, t: State)
    requires TagInv(s) && t.books.tags == s.books.tags && t.memory.closed == s.memory.closed
    requires forall pid: Pid :: At(t, pid) && PhaseOf(t, pid).Tagging? ==>
      At(s, pid) && PhaseOf(s, pid) == PhaseOf(t, pid)
    ensures TagInv(t)
  {
  }

  lemma TagOutside(s: State, action: Action)
    requires TagInv(s) && NextOutside(s, action).Some?
    ensures TagInv(NextOutside(s, action).value)
  {
    TagMoves(s, NextOutside(s, action).value);
  }

  lemma TagBackfill(s: State, action: Action)
    requires action.Backfill? && LockInv(s) && CampaignInv(s.books.campaign, s.memory) && TagInv(s) &&
      NextClaiming(s, action).Some?
    ensures TagInv(NextClaiming(s, action).value)
  {
    var t := NextClaiming(s, action).value;
    BackfillKeepsTags(s, action.upto);
    assert TagsAre(t.books.tags, t.memory.closed);
    forall q: Pid | At(t, q) ensures !PhaseOf(t, q).Tagging? {
      assert At(s, q) && HoldsLock(PhaseOf(s, q)) ==> s.lock == Some(q);
    }
  }

  lemma TagClaiming(s: State, action: Action)
    requires !action.Backfill? && TagInv(s) && NextClaiming(s, action).Some?
    ensures TagInv(NextClaiming(s, action).value)
  {
    TagMoves(s, NextClaiming(s, action).value);
  }

  lemma TagAppends(s: State, action: Action)
    requires action.Tag? && LockInv(s) && TagInv(s) && NextLocked(s, action).Some?
    ensures TagInv(NextLocked(s, action).value)
  {
    var t := NextLocked(s, action).value;
    assert TaggingIsDue(s.books.tags, s.memory.closed, PhaseOf(s, action.pid));
    assert TagsAre(t.books.tags, t.memory.closed);
    forall q: Pid | At(t, q) ensures !PhaseOf(t, q).Tagging? {
      assert At(s, q) && HoldsLock(PhaseOf(s, q)) ==> s.lock == Some(q);
    }
  }

  lemma TagLocked(s: State, action: Action)
    requires !action.WriteReconciled? && !action.WriteMarked? && !action.Tag?
    requires TagInv(s) && NextLocked(s, action).Some?
    ensures TagInv(NextLocked(s, action).value)
  {
    TagMoves(s, NextLocked(s, action).value);
  }

  lemma TagStep(s: State, action: Action)
    requires LockInv(s) && CampaignInv(s.books.campaign, s.memory) && TagInv(s) && Next(s, action).Some?
    ensures TagInv(Next(s, action).value)
  {
    if NextOutside(s, action).Some? { TagOutside(s, action); }
    else if action.Backfill? { TagBackfill(s, action); }
    else if NextClaiming(s, action).Some? { TagClaiming(s, action); }
    else if action.WriteReconciled? || action.WriteMarked? { TagWrites(s, action); }
    else if action.Tag? { TagAppends(s, action); }
    else { TagLocked(s, action); }
  }

  ghost predicate ExactlyOnce(items: seq<string>, item: string) {
    exists k :: 0 <= k < |items| && items[k] == item && forall j :: 0 <= j < |items| && j != k ==> items[j] != item
  }

  lemma DistinctHoldOnce(items: seq<string>, item: string)
    requires Distinct(items) && item in items
    ensures ExactlyOnce(items, item)
  {
    var k :| 0 <= k < |items| && items[k] == item;
  }

  /** A backfill that was not interrupted leaves each resolved transaction of the history with
      exactly one row, whatever rows earlier crashes lost. */
  lemma BackfillCompletes(s: State, pid: Pid, i: nat)
    requires CampaignInv(s.books.campaign, s.memory) && TagInv(s) && LockInv(s)
    requires At(s, pid) && PhaseOf(s, pid).Backfilling?
    requires i < |s.books.campaign.history| && Resolved(s.books.campaign.history[i])
    ensures var all := Backfill(pid, |Missing(s.books.campaign.history, s.books.tags)|);
      && Next(s, all).Some?
      && ExactlyOnce(Next(s, all).value.books.tags, s.books.campaign.history[i].taskId)
  {
    var missing := Missing(s.books.campaign.history, s.books.tags);
    MissingMeans(s.books.campaign.history, s.books.tags);
    BackfillKeepsTags(s, |missing|);
    assert missing[..|missing|] == missing;
    DistinctHoldOnce(s.books.tags + missing, s.books.campaign.history[i].taskId);
  }

  /** The row that a closure owes is in the ledger once its worker has appended it. */
  lemma TagWritesTheRow(s: State, pid: Pid)
    requires At(s, pid) && PhaseOf(s, pid).Tagging?
    ensures Next(s, Tag(pid, false)).Some?
    ensures Next(s, Tag(pid, false)).value.books.tags == s.books.tags + [PhaseOf(s, pid).taskId]
  {
  }
}
