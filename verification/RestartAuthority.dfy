/** On what evidence a transaction is closed, and how often in one generation, in every run. */
module RestartAuthority {
  import opened Options
  import opened RestartDecisions
  import opened RestartProtocol
  import opened RestartInvariants
  import opened RestartBooks

  // ---- evidence ----

  /** Git said no, or nothing. */
  predicate NotContained(facts: set<Fact>, sha: string, commit: string) {
    Lacks(sha, commit) in facts || Unanswered(sha, commit) in facts
  }

  /** What the run had learnt for a closure: an absorbed commit is the one the restart asked
      for and serves, or is contained in the serving one, or is the intent's commit there; an
      abandoned one was not seen to be contained, and was not held. */
  ghost predicate Justified(facts: set<Fact>, closure: Closure) {
    var tx, sha := closure.tx, closure.boot.sha;
    && (Bound(tx) ==> closure.receiptValid)
    && (tx.outcome.Open? <==> tx.commit == "")
    && (tx.outcome.Absorbed? ==>
          if closure.viaMarker then tx.commit == sha
          else if sha != "" then Contains(sha, tx.commit) in facts || IntentAt(sha, tx.commit) in facts
          else Contains("", tx.commit) in facts || IntentInCandidate(tx.taskId, tx.commit) in facts)
    && (tx.outcome.Abandoned? ==>
         !closure.viaMarker && NotContained(facts, sha, tx.commit) && NotHeld(tx.taskId, tx.commit) in facts)
  }

  ghost predicate Known(facts: set<Fact>, sha: string, snapshot: Snapshot) {
    snapshot.commit != "" ==>
      && (if snapshot.reachable then Contains(sha, snapshot.commit) in facts
           else NotContained(facts, sha, snapshot.commit))
      && (snapshot.held == Some(false) ==> NotHeld(snapshot.taskId, snapshot.commit) in facts)
  }

  ghost predicate SnapshotKnown(facts: set<Fact>, worker: Worker) {
    && (worker.phase.LockingReconcile? ==> Known(facts, worker.boot.sha, worker.phase.snapshot))
    && (worker.phase.Reconciling? ==> Known(facts, worker.boot.sha, worker.phase.snapshot))
  }

  ghost predicate ClosuresJustified(memory: Memory) {
    forall i :: 0 <= i < |memory.closed| ==> Justified(memory.facts, memory.closed[i])
  }

  ghost predicate FactInv(s: State) {
    && ClosuresJustified(s.memory)
    && (forall pid: Pid :: At(s, pid) ==> SnapshotKnown(s.memory.facts, s.workers[pid]))
  }

  /** Facts are only added, nothing is closed, and no worker comes by an unknown snapshot. */
  lemma FactMoves(s: State, t: State)
    requires FactInv(s) && s.memory.facts <= t.memory.facts && t.memory.closed == s.memory.closed
    requires forall pid: Pid :: At(t, pid) ==>
      SnapshotKnown(t.memory.facts, t.workers[pid]) || (At(s, pid) && s.workers[pid] == t.workers[pid])
    ensures FactInv(t)
  {
    forall pid: Pid | At(t, pid) ensures SnapshotKnown(t.memory.facts, t.workers[pid]) {
      assert At(s, pid) ==> SnapshotKnown(s.memory.facts, s.workers[pid]);
    }
  }

  lemma WrittenKeepsFacts(s: State, pid: Pid, decision: Decision, viaMarker: bool, facts: set<Fact>)
    requires FactInv(s) && At(s, pid)
    requires decision.closes.Some? ==>
      Justified(s.memory.facts + facts,
        Closure(decision.closes.value, s.workers[pid].boot, viaMarker,
          ReceiptValid(s.books.campaign, decision.closes.value)))
    ensures FactInv(Written(s, pid, decision, viaMarker, facts))
  {
    var t := Written(s, pid, decision, viaMarker, facts);
    assert t.memory.facts == s.memory.facts + facts;
    forall q: Pid | At(t, q) ensures SnapshotKnown(t.memory.facts, t.workers[q]) {
      assert At(s, q) ==> SnapshotKnown(s.memory.facts, s.workers[q]);
    }
    forall i | 0 <= i < |t.memory.closed| ensures Justified(t.memory.facts, t.memory.closed[i]) {
      if i < |s.memory.closed| { assert t.memory.closed[i] == s.memory.closed[i]; }
    }
  }

  lemma ReconciledIsEvident(s: State, pid: Pid, reading: Reading)
    requires At(s, pid) && PhaseOf(s, pid).Reconciling? && LockInv(s) && FactInv(s)
    requires Reconcile(PhaseOf(s, pid).copy, s.workers[pid].boot, PhaseOf(s, pid).snapshot, reading).closes.Some?
    ensures var phase, boot := PhaseOf(s, pid), s.workers[pid].boot;
      var tx := Reconcile(phase.copy, boot, phase.snapshot, reading).closes.value;
      Justified(s.memory.facts + Facts(boot, ActiveTask(phase.copy), reading),
        Closure(tx, boot, false, ReceiptValid(s.books.campaign, tx)))
  {
    var phase, boot := PhaseOf(s, pid), s.workers[pid].boot;
    assert phase.copy == s.books.campaign;
    ReconcileIsJustified(phase.copy, boot, phase.snapshot, reading);
    assert SnapshotKnown(s.memory.facts, s.workers[pid]);
  }

  lemma MarkedIsEvident(s: State, pid: Pid, reading: Reading)
    requires At(s, pid) && PhaseOf(s, pid).Marking? && LockInv(s) && CampaignInv(s.books.campaign, s.memory)
    requires MarkVerified(PhaseOf(s, pid).copy, s.workers[pid].boot, PhaseOf(s, pid).marker, reading).closes.Some?
    ensures var phase, boot := PhaseOf(s, pid), s.workers[pid].boot;
      var tx := MarkVerified(phase.copy, boot, phase.marker, reading).closes.value;
      Justified(s.memory.facts, Closure(tx, boot, true, ReceiptValid(s.books.campaign, tx)))
  {
    var phase, boot := PhaseOf(s, pid), s.workers[pid].boot;
    assert phase.copy == s.books.campaign;
    MarkIsJustified(phase.copy, boot, phase.marker, Snapshot("", false, "", None), reading);
  }

  lemma FactWrites(s: State, action: Action)
    requires action.WriteReconciled? || action.WriteMarked?
    requires LockInv(s) && CampaignInv(s.books.campaign, s.memory) && FactInv(s) && NextLocked(s, action).Some?
    ensures FactInv(NextLocked(s, action).value)
  {
    var pid := action.pid;
    var phase, boot := PhaseOf(s, pid), s.workers[pid].boot;
    if action.fails {
      FactMoves(s, NextLocked(s, action).value);
    } else if action.WriteReconciled? {
      var decision := Reconcile(phase.copy, boot, phase.snapshot, action.reading);
      if decision.closes.Some? { ReconciledIsEvident(s, pid, action.reading); }
      WrittenKeepsFacts(s, pid, decision, false, Facts(boot, ActiveTask(phase.copy), action.reading));
    } else {
      var decision := MarkVerified(phase.copy, boot, phase.marker, action.reading);
      if decision.closes.Some? {
        MarkedIsEvident(s, pid, action.reading);
        assert s.memory.facts + {} == s.memory.facts;
      }
      WrittenKeepsFacts(s, pid, decision, true, {});
    }
  }

  lemma FactLocked(s: State, action: Action)
    requires !action.WriteReconciled? && !action.WriteMarked?
    requires FactInv(s) && NextLocked(s, action).Some?
    ensures FactInv(NextLocked(s, action).value)
  {
    var t := NextLocked(s, action).value;
    if action.LockToReconcile? {
      assert SnapshotKnown(s.memory.facts, s.workers[action.pid]);
    }
    FactMoves(s, t);
  }

  lemma FactOutside(s: State, action: Action)
    requires FactInv(s) && NextOutside(s, action).Some?
    ensures FactInv(NextOutside(s, action).value)
  {
    FactMoves(s, NextOutside(s, action).value);
  }

  lemma FactClaiming(s: State, action: Action)
    requires FactInv(s) && NextClaiming(s, action).Some?
    ensures FactInv(NextClaiming(s, action).value)
  {
    FactMoves(s, NextClaiming(s, action).value);
  }

  lemma FactStep(s: State, action: Action)
    requires LockInv(s) && CampaignInv(s.books.campaign, s.memory) && FactInv(s) && Next(s, action).Some?
    ensures FactInv(Next(s, action).value)
  {
    if NextOutside(s, action).Some? { FactOutside(s, action); }
    else if NextClaiming(s, action).Some? { FactClaiming(s, action); }
    else if action.WriteReconciled? || action.WriteMarked? { FactWrites(s, action); }
    else { FactLocked(s, action); }
  }

  // ---- one closure a generation ----

  ghost predicate ClosedIn(closed: seq<Closure>, generation: string) {
    exists i :: 0 <= i < |closed| && closed[i].boot.generation == generation
  }

  /** After a closure of a named generation, only a legacy marker closes again in it. */
  ghost predicate OncePerGeneration(closed: seq<Closure>) {
    forall i, j :: 0 <= i < j < |closed| && closed[i].boot.generation == closed[j].boot.generation != "" ==>
      closed[j].viaMarker && !Bound(closed[j].tx)
  }

  ghost predicate StampInv(s: State) {
    && OncePerGeneration(s.memory.closed)
    && (s.generation != "" && ClosedIn(s.memory.closed, s.generation) ==> s.books.campaign.stamp == s.generation)
  }

  ghost predicate StampAllows(s: State, pid: Pid, decision: Decision, viaMarker: bool)
    requires At(s, pid)
  {
    var generation := s.workers[pid].boot.generation;
    decision.closes.Some? && (!viaMarker || Bound(decision.closes.value)) ==>
      generation == "" || s.books.campaign.stamp != generation
  }

  lemma WrittenKeepsStamp(s: State, pid: Pid, decision: Decision, viaMarker: bool, facts: set<Fact>)
    requires StampInv(s) && BootInv(s) && CleanStep(s, pid, decision) && StampAllows(s, pid, decision, viaMarker)
    ensures StampInv(Written(s, pid, decision, viaMarker, facts))
  {
    var t := Written(s, pid, decision, viaMarker, facts);
    assert s.workers[pid].boot.generation == s.generation;
    if decision.closes.Some? {
      var last := |s.memory.closed|;
      assert t.memory.closed[..last] == s.memory.closed;
      forall i, j | 0 <= i < j < |t.memory.closed| &&
        t.memory.closed[i].boot.generation == t.memory.closed[j].boot.generation != ""
        ensures t.memory.closed[j].viaMarker && !Bound(t.memory.closed[j].tx)
      {
        if j == last { assert s.memory.closed[i].boot.generation == s.generation; }
      }
    }
  }

  lemma StampWrites(s: State, action: Action)
    requires action.WriteReconciled? || action.WriteMarked?
    requires LockInv(s) && BootInv(s) && CampaignInv(s.books.campaign, s.memory) && StampInv(s) &&
      NextLocked(s, action).Some?
    ensures StampInv(NextLocked(s, action).value)
  {
    var pid := action.pid;
    if !action.fails {
      var phase, boot := PhaseOf(s, pid), s.workers[pid].boot;
      assert phase.copy == s.books.campaign;
      if action.WriteReconciled? {
        var decision := Reconcile(phase.copy, boot, phase.snapshot, action.reading);
        ReconciledIsClean(s, pid, action.reading);
        if decision.closes.Some? { ReconcileIsJustified(phase.copy, boot, phase.snapshot, action.reading); }
        WrittenKeepsStamp(s, pid, decision, false, Facts(boot, ActiveTask(phase.copy), action.reading));
      } else {
        var decision := MarkVerified(phase.copy, boot, phase.marker, action.reading);
        var none := Snapshot("", false, "", None);
        MarkedIsClean(s, pid, action.reading, none);
        if decision.closes.Some? { MarkIsJustified(phase.copy, boot, phase.marker, none, action.reading); }
        WrittenKeepsStamp(s, pid, decision, true, {});
      }
    }
  }

  lemma StampOutside(s: State, action: Action)
    requires BootInv(s) && StampInv(s) && NextOutside(s, action).Some?
    ensures StampInv(NextOutside(s, action).value)
  {
    if action.NextGeneration? {
      assert action.generation != "" ==> !ClosedIn(s.memory.closed, action.generation);
    }
  }

  lemma StampLocked(s: State, action: Action)
    requires !action.WriteReconciled? && !action.WriteMarked?
    requires StampInv(s) && NextLocked(s, action).Some?
    ensures StampInv(NextLocked(s, action).value)
  {
  }

  lemma GenerationClaiming(s: State, action: Action)
    requires NextClaiming(s, action).Some?
    ensures NextClaiming(s, action).value.generation == s.generation
  {
  }

  lemma StampStep(s: State, action: Action)
    requires LockInv(s) && BootInv(s) && CampaignInv(s.books.campaign, s.memory) && StampInv(s) && Next(s, action).Some?
    ensures StampInv(Next(s, action).value)
  {
    if NextOutside(s, action).Some? {
      StampOutside(s, action);
    } else if NextClaiming(s, action).Some? {
      CampaignClaiming(s, action);
      GenerationClaiming(s, action);
    } else if action.WriteReconciled? || action.WriteMarked? {
      StampWrites(s, action);
    } else {
      StampLocked(s, action);
    }
  }
}
