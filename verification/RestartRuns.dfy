/** What holds in every state any run of the restart verification can reach. */
module RestartRuns {
  import opened Options
  import opened RestartDecisions
  import opened RestartProtocol
  import opened RestartInvariants
  import opened RestartBooks
  import opened RestartAuthority

  ghost predicate Inv(s: State) {
    && LockInv(s) && MarkerInv(s) && BootInv(s)
    && CampaignInv(s.books.campaign, s.memory) && TagInv(s)
    && FactInv(s) && StampInv(s)
  }

  lemma StepKeeps(s: State, action: Action)
    requires Inv(s) && Next(s, action).Some?
    ensures Inv(Next(s, action).value)
  {
    LockStep(s, action);
    MarkerStep(s, action);
    BootStep(s, action);
    CampaignStep(s, action);
    TagStep(s, action);
    FactStep(s, action);
    StampStep(s, action);
  }

  lemma {:induction false} LaterKeeps(s: State, actions: seq<Action>)
    requires Inv(s) && Run(s, actions).Some?
    ensures Inv(Run(s, actions).value)
    decreases |actions|
  {
    if actions != [] {
      StepKeeps(s, actions[0]);
      LaterKeeps(Next(s, actions[0]).value, actions[1..]);
    }
  }

  lemma RunKeeps(start: State, actions: seq<Action>)
    requires Initial(start) && Run(start, actions).Some?
    ensures Inv(Run(start, actions).value)
  {
    LaterKeeps(start, actions);
  }

  // ---- each transaction once ----

  lemma HistoryHasUniqueIds(campaign: Campaign, memory: Memory)
    requires CampaignInv(campaign, memory)
    ensures UniqueIds(campaign.history)
  {
    var txs, history := ClosedTxs(memory.closed), campaign.history;
    var skipped := if |txs| <= HISTORY_LIMIT then 0 else |txs| - HISTORY_LIMIT;
    assert history == txs[skipped..];
    forall i, j | 0 <= i < j < |history| ensures history[i].id != history[j].id {
      assert history[i] == memory.closed[skipped + i].tx && history[j] == memory.closed[skipped + j].tx;
    }
  }

  /** No transaction is closed twice, so none is both absorbed and abandoned; no id is twice
      in the history; the counter is the number of absorbed ones; a task has at most one row. */
  lemma EachTransactionOnce(start: State, actions: seq<Action>)
    requires Initial(start) && Run(start, actions).Some?
    ensures var s := Run(start, actions).value;
      && (forall i, j :: 0 <= i < j < |s.memory.closed| ==> s.memory.closed[i].tx.id != s.memory.closed[j].tx.id)
      && UniqueIds(s.books.campaign.history)
      && s.books.campaign.absorbedDone == AbsorbedCount(s.memory.closed)
      && Distinct(s.books.tags)
      && (forall t :: t in s.books.tags ==> ResolvedTask(s.memory.closed, t))
  {
    RunKeeps(start, actions);
    HistoryHasUniqueIds(Run(start, actions).value.books.campaign, Run(start, actions).value.memory);
  }

  /** One step closes at most one transaction, and counts it exactly when it is absorbed. */
  lemma OneStepCountsOne(s: State, action: Action)
    requires Inv(s) && Next(s, action).Some?
    ensures var before, after := s.memory.closed, Next(s, action).value.memory.closed;
      && (after == before || (|after| == |before| + 1 && after[..|before|] == before))
      && Next(s, action).value.books.campaign.absorbedDone == s.books.campaign.absorbedDone +
           (if after != before && after[|before|].tx.outcome.Absorbed? then 1 else 0)
  {
    StepKeeps(s, action);
    ClosedGrowsByOne(s, action);
    var before, after := s.memory.closed, Next(s, action).value.memory.closed;
    if after != before { assert after[..|after| - 1] == before; }
  }

  lemma ClosedGrowsByOne(s: State, action: Action)
    requires Next(s, action).Some?
    ensures var before, after := s.memory.closed, Next(s, action).value.memory.closed;
      after == before || (Writes(action) && |after| == |before| + 1 && after[..|before|] == before)
  {
    if NextOutside(s, action).None? && NextClaiming(s, action).Some? { CampaignClaiming(s, action); }
  }

  lemma StampBlocksReconciling(s: State, action: Action)
    requires action.WriteReconciled? && LockInv(s) && BootInv(s) && NextLocked(s, action).Some?
    requires s.generation != "" && s.books.campaign.stamp == s.generation
    ensures NextLocked(s, action).value.memory.closed == s.memory.closed
  {
    var phase, boot := PhaseOf(s, action.pid), s.workers[action.pid].boot;
    assert phase.copy == s.books.campaign && boot.generation == s.generation;
    assert !MayReconcile(phase.copy, boot, action.reading);
  }

  ghost predicate OnlyLegacyCloses(before: seq<Closure>, after: seq<Closure>) {
    after == before || (|after| > |before| && after[|before|].viaMarker && !Bound(after[|before|].tx))
  }

  lemma StampBlocksMarking(s: State, action: Action)
    requires action.WriteMarked? && LockInv(s) && BootInv(s) && NextLocked(s, action).Some?
    requires CampaignInv(s.books.campaign, s.memory)
    requires s.generation != "" && s.books.campaign.stamp == s.generation
    ensures OnlyLegacyCloses(s.memory.closed, NextLocked(s, action).value.memory.closed)
  {
    var phase, boot := PhaseOf(s, action.pid), s.workers[action.pid].boot;
    assert phase.copy == s.books.campaign && boot.generation == s.generation;
    if MarkVerified(phase.copy, boot, phase.marker, action.reading).closes.Some? {
      MarkIsJustified(phase.copy, boot, phase.marker, Snapshot("", false, "", None), action.reading);
    }
  }

  /** While the campaign carries a generation's stamp, no worker of it closes a bound
      transaction, nor any transaction without the marker. */
  lemma StampBlocks(s: State, action: Action)
    requires LockInv(s) && BootInv(s) && CampaignInv(s.books.campaign, s.memory) && Next(s, action).Some?
    requires s.generation != "" && s.books.campaign.stamp == s.generation
    ensures OnlyLegacyCloses(s.memory.closed, Next(s, action).value.memory.closed)
  {
    ClosedGrowsByOne(s, action);
    if action.WriteReconciled? {
      StampBlocksReconciling(s, action);
    } else if action.WriteMarked? {
      StampBlocksMarking(s, action);
    }
  }

  // ---- the open transaction ----

  /** The open transaction stays as it was recorded, or leaves the campaign as it was closed. */
  ghost predicate CommitHeld(s: State, t: State, tx: Tx) {
    var now := t.books.campaign.active;
    if now.Some? then now.value.id == tx.id && now.value.commit == tx.commit && now.value.receipt == tx.receipt
    else
      && |t.memory.closed| == |s.memory.closed| + 1
      && var closed := t.memory.closed[|s.memory.closed|].tx;
         closed.id == tx.id && closed.commit == tx.commit && closed.receipt == tx.receipt
  }

  lemma WrittenHoldsCommit(s: State, pid: Pid, decision: Decision, viaMarker: bool, facts: set<Fact>, tx: Tx)
    requires CleanStep(s, pid, decision) && s.books.campaign.active == Some(tx) && tx.commit != ""
    ensures CommitHeld(s, Written(s, pid, decision, viaMarker, facts), tx)
  {
  }

  lemma WritesHoldCommit(s: State, action: Action, tx: Tx)
    requires Writes(action) && LockInv(s) && CampaignInv(s.books.campaign, s.memory) && NextLocked(s, action).Some?
    requires s.books.campaign.active == Some(tx) && tx.commit != ""
    ensures CommitHeld(s, NextLocked(s, action).value, tx)
  {
    var pid := action.pid;
    if !action.fails {
      var phase, boot := PhaseOf(s, pid), s.workers[pid].boot;
      if action.WriteReconciled? {
        ReconciledIsClean(s, pid, action.reading);
        WrittenHoldsCommit(s, pid, Reconcile(phase.copy, boot, phase.snapshot, action.reading), false,
                           Facts(boot, ActiveTask(phase.copy), action.reading), tx);
      } else {
        MarkedIsClean(s, pid, action.reading, Snapshot("", false, "", None));
        WrittenHoldsCommit(s, pid, MarkVerified(phase.copy, boot, phase.marker, action.reading), true, {}, tx);
      }
    }
  }

  lemma OutsideHoldsCommit(s: State, action: Action, tx: Tx)
    requires NextOutside(s, action).Some? && !action.RecordCommit?
    requires s.books.campaign.active == Some(tx) && tx.commit != ""
    ensures CommitHeld(s, NextOutside(s, action).value, tx)
  {
  }

  lemma LockedHoldsCommit(s: State, action: Action, tx: Tx)
    requires NextLocked(s, action).Some? && !Writes(action) && s.books.campaign.active == Some(tx)
    ensures CommitHeld(s, NextLocked(s, action).value, tx)
  {
  }

  /** In every step of every run: a recorded commit and its receipt leave the campaign only with
      their transaction, which is closed with them; the owner may record the same commit again. */
  lemma CommitLeavesOnlyByClosure(s: State, action: Action)
    requires LockInv(s) && CampaignInv(s.books.campaign, s.memory) && Next(s, action).Some?
    requires s.books.campaign.active.Some? && s.books.campaign.active.value.commit != ""
    ensures var tx, t := s.books.campaign.active.value, Next(s, action).value;
      if action.RecordCommit? then
        t.books.campaign.active.Some? && t.books.campaign.active.value.id == tx.id
        && t.books.campaign.active.value.commit == tx.commit
        && t.books.campaign.active.value.receipt in {tx.receipt, Adopted(s.books.campaign, tx, tx.commit).receipt}
      else CommitHeld(s, t, tx)
  {
    var tx := s.books.campaign.active.value;
    if action.RecordCommit? {
    } else if NextOutside(s, action).Some? {
      OutsideHoldsCommit(s, action, tx);
    } else if NextClaiming(s, action).Some? {
      CampaignClaiming(s, action);
    } else if Writes(action) {
      WritesHoldCommit(s, action, tx);
    } else {
      LockedHoldsCommit(s, action, tx);
    }
  }

  /** A worker that looked with leave leaves its named generation's stamp. */
  lemma LooksOnce(s: State, pid: Pid, reading: Reading)
    requires LockInv(s) && At(s, pid) && PhaseOf(s, pid).Reconciling? && s.workers[pid].boot.generation != ""
    requires MayReconcile(s.books.campaign, s.workers[pid].boot, reading)
    ensures var t := NextLocked(s, WriteReconciled(pid, reading, false));
      t.Some? && t.value.books.campaign.stamp == s.workers[pid].boot.generation
  {
    var phase, boot := PhaseOf(s, pid), s.workers[pid].boot;
    assert phase.copy == s.books.campaign;
    if phase.copy.active.Some? { ReconcileClosesExactly(phase.copy, boot, phase.snapshot, reading); }
  }

  // ---- the marker ----

  /** One live worker at most has the marker in hand, and its claim file is the only copy. */
  lemma OneWorkerHasTheMarker(start: State, actions: seq<Action>, p: Pid, q: Pid)
    requires Initial(start) && Run(start, actions).Some?
    requires var s := Run(start, actions).value;
      At(s, p) && At(s, q) && Processing(PhaseOf(s, p)) && Processing(PhaseOf(s, q))
    ensures p == q
    ensures var s := Run(start, actions).value;
      s.files.requested.Some? && s.files.pending.None? && s.files.claims == map[p := s.files.requested.value]
  {
    RunKeeps(start, actions);
    var s := Run(start, actions).value;
    assert HoldsMarker(s.files, p, PhaseOf(s, p)) && HoldsMarker(s.files, q, PhaseOf(s, q));
  }

  lemma LockedKeepsFiles(s: State, action: Action)
    requires NextLocked(s, action).Some?
    ensures NextLocked(s, action).value.files == s.files
  {
  }

  lemma OnlyUnlinkForgets(s: State, action: Action)
    requires Next(s, action).Some? && s.files.requested.Some?
    requires !(action.Unlink? && At(s, action.pid) && PhaseOf(s, action.pid) == Settling(true))
    ensures Next(s, action).value.files.requested == s.files.requested
  {
    if NextOutside(s, action).None? && NextClaiming(s, action).None? { LockedKeepsFiles(s, action); }
  }

  /** A marker on disk stays on disk, in one place, unless its worker ends a durable outcome. */
  lemma MarkerSurvives(s: State, action: Action)
    requires Inv(s) && Next(s, action).Some? && s.files.requested.Some?
    requires !(action.Unlink? && At(s, action.pid) && PhaseOf(s, action.pid) == Settling(true))
    ensures Next(s, action).value.files.requested == s.files.requested
    ensures OnePlace(Next(s, action).value.files)
  {
    OnlyUnlinkForgets(s, action);
    MarkerStep(s, action);
  }

  /** On the way to the removal of the marker. */
  predicate OnDurableWay(phase: Phase) {
    phase == Settling(true) || phase == Unlocking(true, true) || (phase.Tagging? && phase.viaMarker)
  }

  ghost predicate ComesOnDurableWay(s: State, t: State, pid: Pid) {
    At(t, pid) && OnDurableWay(PhaseOf(t, pid)) && !(At(s, pid) && OnDurableWay(PhaseOf(s, pid)))
  }

  lemma OutsideIsNotDurable(s: State, action: Action, pid: Pid)
    requires NextOutside(s, action).Some?
    ensures !ComesOnDurableWay(s, NextOutside(s, action).value, pid)
  {
  }

  lemma ClaimingIsNotDurable(s: State, action: Action, pid: Pid)
    requires NextClaiming(s, action).Some?
    ensures !ComesOnDurableWay(s, NextClaiming(s, action).value, pid)
  {
  }

  lemma LockedIsDurable(s: State, action: Action, pid: Pid)
    requires NextLocked(s, action).Some? && ComesOnDurableWay(s, NextLocked(s, action).value, pid)
    ensures action.WriteMarked? && action.pid == pid && !action.fails && At(s, pid) && PhaseOf(s, pid).Marking?
    ensures var phase := PhaseOf(s, pid);
      MarkVerified(phase.copy, s.workers[pid].boot, phase.marker, action.reading).durable
  {
    if action.WriteMarked? && At(s, pid) && PhaseOf(s, pid).Marking? {
      ClosedByMarkIsDurable(PhaseOf(s, pid).copy, s.workers[pid].boot, PhaseOf(s, pid).marker, action.reading);
    }
  }

  lemma ClosedByMarkIsDurable(campaign: Campaign, boot: Boot, marker: Marker, reading: Reading)
    ensures MarkVerified(campaign, boot, marker, reading).closes.Some? ==>
      MarkVerified(campaign, boot, marker, reading).durable
  {
  }

  /** A worker comes to remove its marker only by a write that did not fail, of a decision that
      settles the marker; a failed write, a refused lock or a kept marker never does. */
  lemma DurableOnlyByDecision(s: State, action: Action, pid: Pid)
    requires Next(s, action).Some? && ComesOnDurableWay(s, Next(s, action).value, pid)
    ensures action.WriteMarked? && action.pid == pid && !action.fails && At(s, pid) && PhaseOf(s, pid).Marking?
    ensures var phase := PhaseOf(s, pid);
      MarkVerified(phase.copy, s.workers[pid].boot, phase.marker, action.reading).durable
  {
    if NextOutside(s, action).Some? { OutsideIsNotDurable(s, action, pid); }
    else if NextClaiming(s, action).Some? { ClaimingIsNotDurable(s, action, pid); }
    else { LockedIsDurable(s, action, pid); }
  }

  lemma HeldAlone(s: State, pid: Pid)
    requires MarkerInv(s) && At(s, pid) && Processing(PhaseOf(s, pid))
    ensures s.files.requested.Some? && s.files == Files(None, map[pid := s.files.requested.value], s.files.requested)
  {
    assert HoldsMarker(s.files, pid, PhaseOf(s, pid)) && OnePlace(s.files);
  }

  /** A settled marker goes with the unlink. */
  lemma SettledMarkerGoes(s: State, pid: Pid)
    requires MarkerInv(s) && At(s, pid) && PhaseOf(s, pid) == Settling(true)
    ensures NextClaiming(s, Unlink(pid, false)).Some?
    ensures NextClaiming(s, Unlink(pid, false)).value.files == Files(None, map[], None)
  {
    HeldAlone(s, pid);
    assert s.files.claims - {pid} == map[];
  }

  /** An unsettled one is looked after, and the rename makes it pending again, held by nobody. */
  lemma UnsettledMarkerReturns(s: State, pid: Pid)
    requires MarkerInv(s) && At(s, pid) && (PhaseOf(s, pid) == Settling(false) || PhaseOf(s, pid).Restoring?)
    ensures PhaseOf(s, pid) == Settling(false) ==>
      NextClaiming(s, LookToRestore(pid)) == Some(To(s, pid, Restoring))
    ensures PhaseOf(s, pid).Restoring? ==>
      && NextClaiming(s, RestoreMarker(pid, false)).Some?
      && NextClaiming(s, RestoreMarker(pid, false)).value.files == Files(s.files.requested, map[], s.files.requested)
  {
    HeldAlone(s, pid);
    assert s.files.claims - {pid} == map[];
  }

  /** How far the holder of the marker still has to go. */
  function StepsLeft(phase: Phase): nat {
    match phase
    case Claimed => 6
    case LockingMark(_) => 5
    case Marking(_, _) => 4
    case Tagging(_, _) => 3
    case Unlocking(_, _) => 2
    case Settling(_) => 1
    case _ => 0
  }

  ghost predicate Nearer(s: State, t: Option<State>, pid: Pid)
    requires At(s, pid)
  {
    && t.Some? && At(t.value, pid) && Processing(PhaseOf(t.value, pid))
    && StepsLeft(PhaseOf(t.value, pid)) < StepsLeft(PhaseOf(s, pid))
  }

  lemma HolderReads(s: State, pid: Pid)
    requires MarkerInv(s) && At(s, pid)
    ensures PhaseOf(s, pid).Claimed? ==> Nearer(s, NextClaiming(s, ReadMarker(pid)), pid)
    ensures PhaseOf(s, pid) == Settling(false) ==> Nearer(s, NextClaiming(s, LookToRestore(pid)), pid)
  {
    if Processing(PhaseOf(s, pid)) { HeldAlone(s, pid); }
  }

  lemma HolderDecides(s: State, pid: Pid, acquired: bool, reading: Reading, fails: bool)
    requires At(s, pid) && (acquired ==> s.lock.None?)
    ensures PhaseOf(s, pid).LockingMark? ==> Nearer(s, NextLocked(s, LockToMark(pid, acquired)), pid)
    ensures PhaseOf(s, pid).Marking? ==> Nearer(s, NextLocked(s, WriteMarked(pid, reading, fails)), pid)
  {
  }

  lemma HolderUnlocks(s: State, pid: Pid, fails: bool)
    requires At(s, pid) && Processing(PhaseOf(s, pid))
    ensures PhaseOf(s, pid).Tagging? ==> Nearer(s, NextLocked(s, Tag(pid, fails)), pid)
    ensures PhaseOf(s, pid).Unlocking? ==> Nearer(s, NextLocked(s, Unlock(pid)), pid)
  {
  }

  /** A holder of the marker is never stuck: it has a step that brings it nearer to its end
      whatever the lock, the write and the row do; the last step removes the marker or puts it
      back (SettledMarkerGoes, UnsettledMarkerReturns). */
  lemma HolderCanMove(s: State, pid: Pid) returns (action: Action)
    requires MarkerInv(s) && At(s, pid) && Processing(PhaseOf(s, pid))
    requires PhaseOf(s, pid) != Settling(true) && !PhaseOf(s, pid).Restoring?
    ensures Nearer(s, NextClaiming(s, action), pid) || Nearer(s, NextLocked(s, action), pid)
  {
    HolderReads(s, pid);
    HolderDecides(s, pid, false, Reading(true, false, "", ""), true);
    HolderUnlocks(s, pid, true);
    action := match PhaseOf(s, pid)
      case Claimed => ReadMarker(pid)
      case LockingMark(_) => LockToMark(pid, false)
      case Marking(_, _) => WriteMarked(pid, Reading(true, false, "", ""), true)
      case Tagging(_, _) => Tag(pid, true)
      case Unlocking(_, _) => Unlock(pid)
      case _ => LookToRestore(pid);
  }

  /** A worker that found no marker goes on to look at the campaign exactly when no claim stands. */
  lemma ListerYields(s: State, pid: Pid, found: seq<Pid>)
    requires At(s, pid) && PhaseOf(s, pid).Listing? && Next(s, ListClaims(pid, found)).Some?
    ensures var t := Next(s, ListClaims(pid, found)).value;
      At(t, pid) && (PhaseOf(t, pid).Snapping? <==> s.files.claims.Keys == {})
  {
    var listed := set q | q in found;
    assert listed == s.files.claims.Keys;
    if found == [] { assert listed == {}; } else { assert found[0] in listed; }
  }

  /** It takes over no claim of a live worker, and the first one of a dead worker it can rename. */
  lemma ScannerYields(s: State, pid: Pid, fails: bool)
    requires At(s, pid) && PhaseOf(s, pid).Scanning? && PhaseOf(s, pid).todo != []
    ensures var t, first := Next(s, ScanNext(pid, fails)), PhaseOf(s, pid).todo[0];
      && t.Some? && At(t.value, pid)
      && (At(s, first) ==> PhaseOf(t.value, pid).Finished? && t.value.files == s.files)
      && (!At(s, first) && first in s.files.claims && !fails ==>
            PhaseOf(t.value, pid).Claimed? && pid in t.value.files.claims
            && t.value.files.claims[pid] == s.files.claims[first])
  {
  }

  function Booted(s: State, pid: Pid, sha: string, phase: Phase): State {
    s.(workers := s.workers[pid := Worker(true, Boot(s.generation, sha), phase)])
  }

  /** From its start to the listing of the claim files, then `rest`. */
  function UpToListing(pid: Pid, sha: string, rest: seq<Action>): seq<Action> {
    [Spawn(pid, sha)] + ([LockForBackfill(pid, false)] + ([RenameMarker(pid, false)] + rest))
  }

  lemma Advances(s: State, pid: Pid, sha: string, from: Phase, next: Phase)
    ensures To(Booted(s, pid, sha, from), pid, next) == Booted(s, pid, sha, next)
  {
    assert Booted(s, pid, sha, from).workers[pid := Worker(true, Boot(s.generation, sha), next)]
        == Booted(s, pid, sha, next).workers;
  }

  /** A worker that boots while no marker is pending comes to list the claim files. */
  lemma BootsToListing(s: State, pid: Pid, sha: string, rest: seq<Action>)
    requires s.files.pending.None? && pid !in s.workers
    ensures Run(s, UpToListing(pid, sha, rest)) == Run(Booted(s, pid, sha, Listing), rest)
  {
    var rename := [RenameMarker(pid, false)] + rest;
    var skip := [LockForBackfill(pid, false)] + rename;
    RunStep(s, Spawn(pid, sha), Booted(s, pid, sha, Booting), skip);
    Advances(s, pid, sha, Booting, Claiming);
    RunStep(Booted(s, pid, sha, Booting), LockForBackfill(pid, false), Booted(s, pid, sha, Claiming), rename);
    Advances(s, pid, sha, Claiming, Listing);
    RunStep(Booted(s, pid, sha, Claiming), RenameMarker(pid, false), Booted(s, pid, sha, Listing), rest);
  }

  lemma ListsTheDead(s: State, dead: Pid, pid: Pid, sha: string, rest: seq<Action>)
    requires s.files.claims.Keys == {dead}
    ensures Run(Booted(s, pid, sha, Listing), [ListClaims(pid, [dead])] + rest) ==
      Run(Booted(s, pid, sha, Scanning([dead])), rest)
  {
    assert (set q | q in [dead]) == {dead};
    Advances(s, pid, sha, Listing, Scanning([dead]));
    RunStep(Booted(s, pid, sha, Listing), ListClaims(pid, [dead]), Booted(s, pid, sha, Scanning([dead])), rest);
  }

  /** The worker once the marker is its own. */
  function Taker(s: State, pid: Pid, sha: string, marker: Marker): State {
    Booted(s, pid, sha, Claimed).(files := s.files.(claims := map[pid := marker]))
  }

  lemma TakesFromTheDead(s: State, dead: Pid, pid: Pid, sha: string, marker: Marker)
    requires s.files.claims == map[dead := marker] && dead != pid && !At(s, dead)
    ensures Run(Booted(s, pid, sha, Scanning([dead])), [ScanNext(pid, false)] + []) == Some(Taker(s, pid, sha, marker))
  {
    var scanning := Booted(s, pid, sha, Scanning([dead]));
    assert !At(scanning, dead);
    assert (s.files.claims - {dead})[pid := marker] == map[pid := marker];
    Advances(s, pid, sha, Scanning([dead]), Claimed);
    RunStep(scanning, ScanNext(pid, false), Taker(s, pid, sha, marker), []);
  }

  function TakeOver(dead: Pid, pid: Pid, sha: string): seq<Action> {
    UpToListing(pid, sha, [ListClaims(pid, [dead])] + ([ScanNext(pid, false)] + []))
  }

  /** A dead claimant's marker: the next worker to boot can take it over. */
  lemma DeadClaimIsRecovered(s: State, dead: Pid, pid: Pid, sha: string)
    requires Inv(s) && dead in s.files.claims && dead in s.workers && !At(s, dead) && pid !in s.workers
    ensures s.files.pending.None? && Run(s, TakeOver(dead, pid, sha)) == Some(Taker(s, pid, sha, s.files.claims[dead]))
  {
    assert OnePlace(s.files);
    BootsToListing(s, pid, sha, [ListClaims(pid, [dead])] + ([ScanNext(pid, false)] + []));
    ListsTheDead(s, dead, pid, sha, [ScanNext(pid, false)] + []);
    TakesFromTheDead(s, dead, pid, sha, s.files.claims[dead]);
  }

  // ---- the ledger, after a repair ----

  /** Resolved, without a row, and so many closures ago that the history has let it go. */
  ghost predicate Lost(s: State, i: nat) {
    && i + HISTORY_LIMIT < |s.memory.closed| && !s.memory.closed[i].tx.outcome.Open?
    && s.memory.closed[i].tx.taskId !in s.books.tags
    && forall pid: Pid :: At(s, pid) && PhaseOf(s, pid).Tagging? ==>
         PhaseOf(s, pid).taskId != s.memory.closed[i].tx.taskId
  }

  lemma RecentIsInHistory(campaign: Campaign, memory: Memory, i: nat)
    requires CampaignInv(campaign, memory) && i < |memory.closed| <= i + HISTORY_LIMIT
    ensures exists k :: 0 <= k < |campaign.history| && campaign.history[k] == memory.closed[i].tx
  {
    var txs := ClosedTxs(memory.closed);
    var skipped := if |txs| <= HISTORY_LIMIT then 0 else |txs| - HISTORY_LIMIT;
    assert campaign.history == txs[skipped..];
    assert campaign.history[i - skipped] == memory.closed[i].tx;
  }

  /** After an uninterrupted repair in any run, a resolved closure is without a row exactly when
      it had none before and more than fifty closures have been made since: every one that the
      history still holds gets its row, and no other does. */
  lemma RepairLeavesOnlyLost(start: State, actions: seq<Action>, pid: Pid, i: nat)
    requires Initial(start) && Run(start, actions).Some?
    requires var s := Run(start, actions).value;
      At(s, pid) && PhaseOf(s, pid).Backfilling? && i < |s.memory.closed| && !s.memory.closed[i].tx.outcome.Open?
    ensures var s := Run(start, actions).value;
      var repair := Backfill(pid, |Missing(s.books.campaign.history, s.books.tags)|);
      var taskId := s.memory.closed[i].tx.taskId;
      && Next(s, repair).Some?
      && (taskId !in Next(s, repair).value.books.tags <==>
            taskId !in s.books.tags && i + HISTORY_LIMIT < |s.memory.closed|)
  {
    RunKeeps(start, actions);
    var s := Run(start, actions).value;
    var history, tags := s.books.campaign.history, s.books.tags;
    assert Next(s, Backfill(pid, |Missing(history, tags)|)).value.books.tags == tags + Missing(history, tags);
    assert Justified(s.memory.facts, s.memory.closed[i]);
    MissingMeans(history, tags);
    if |s.memory.closed| <= i + HISTORY_LIMIT {
      RecentIsInHistory(s.books.campaign, s.memory, i);
    } else if s.memory.closed[i].tx.taskId in Missing(history, tags) {
      var k :| 0 <= k < |history| && history[k].taskId == s.memory.closed[i].tx.taskId;
      HistoryIsRecent(s.books.campaign, s.memory, k, i);
    }
  }

  lemma HistoryIsRecent(campaign: Campaign, memory: Memory, k: nat, i: nat)
    requires CampaignInv(campaign, memory) && k < |campaign.history| && i + HISTORY_LIMIT < |memory.closed|
    ensures campaign.history[k].taskId != memory.closed[i].tx.taskId
  {
    var txs := ClosedTxs(memory.closed);
    var skipped := |txs| - HISTORY_LIMIT;
    assert campaign.history == txs[skipped..];
    assert campaign.history[k] == memory.closed[skipped + k].tx;
  }

  /** What an action may add to the ledger. */
  lemma RowsAdded(s: State, action: Action, taskId: string)
    requires Next(s, action).Some? && taskId in Next(s, action).value.books.tags && taskId !in s.books.tags
    ensures (action.Backfill? && taskId in Missing(s.books.campaign.history, s.books.tags))
      || (action.Tag? && At(s, action.pid) &&
           PhaseOf(s, action.pid) == Tagging(taskId, PhaseOf(s, action.pid).viaMarker))
  {
  }

  ghost predicate NewTagging(s: State, t: State, pid: Pid) {
    At(t, pid) && PhaseOf(t, pid).Tagging? && !(At(s, pid) && PhaseOf(s, pid) == PhaseOf(t, pid))
  }

  lemma NoTaggingOutside(s: State, action: Action, pid: Pid)
    requires NextOutside(s, action).Some?
    ensures !NewTagging(s, NextOutside(s, action).value, pid)
  {
  }

  lemma NoTaggingClaiming(s: State, action: Action, pid: Pid)
    requires NextClaiming(s, action).Some?
    ensures !NewTagging(s, NextClaiming(s, action).value, pid)
  {
  }

  lemma NoTaggingLocked(s: State, action: Action, pid: Pid)
    requires !Writes(action) && NextLocked(s, action).Some?
    ensures !NewTagging(s, NextLocked(s, action).value, pid)
  {
  }

  lemma WriteTags(s: State, action: Action, pid: Pid)
    requires Writes(action) && NextLocked(s, action).Some? && NewTagging(s, NextLocked(s, action).value, pid)
    ensures var t := NextLocked(s, action).value;
      && |t.memory.closed| == |s.memory.closed| + 1
      && t.memory.closed[|s.memory.closed|].tx.taskId == PhaseOf(t, pid).taskId
  {
  }

  /** A worker comes to write a row only by closing the transaction of that task. */
  lemma TaggingComes(s: State, action: Action, pid: Pid)
    requires Next(s, action).Some? && NewTagging(s, Next(s, action).value, pid)
    ensures var t := Next(s, action).value;
      && |t.memory.closed| == |s.memory.closed| + 1
      && t.memory.closed[|s.memory.closed|].tx.taskId == PhaseOf(t, pid).taskId
  {
    if NextOutside(s, action).Some? { NoTaggingOutside(s, action, pid); }
    else if NextClaiming(s, action).Some? { NoTaggingClaiming(s, action, pid); }
    else if Writes(action) { WriteTags(s, action, pid); }
    else { NoTaggingLocked(s, action, pid); }
  }

  lemma LostIsNotRowed(s: State, action: Action, i: nat)
    requires CampaignInv(s.books.campaign, s.memory) && Lost(s, i) && Next(s, action).Some?
    ensures s.memory.closed[i].tx.taskId !in Next(s, action).value.books.tags
  {
    var taskId := s.memory.closed[i].tx.taskId;
    if taskId in Next(s, action).value.books.tags {
      RowsAdded(s, action, taskId);
      if action.Backfill? {
        MissingMeans(s.books.campaign.history, s.books.tags);
        var k :| 0 <= k < |s.books.campaign.history| && s.books.campaign.history[k].taskId == taskId;
        HistoryIsRecent(s.books.campaign, s.memory, k, i);
      }
    }
  }

  lemma LostIsNotTagged(s: State, action: Action, i: nat, pid: Pid)
    requires Lost(s, i) && Next(s, action).Some? && ClosedOnce(Next(s, action).value.memory)
    requires At(Next(s, action).value, pid) && PhaseOf(Next(s, action).value, pid).Tagging?
    ensures PhaseOf(Next(s, action).value, pid).taskId != s.memory.closed[i].tx.taskId
  {
    var t := Next(s, action).value;
    ClosedGrowsByOne(s, action);
    if NewTagging(s, t, pid) {
      TaggingComes(s, action, pid);
      assert t.memory.closed[i] == t.memory.closed[..|s.memory.closed|][i];
    }
  }

  /** A lost row stays lost: no later step of any run adds it. */
  lemma LostStaysLost(s: State, action: Action, i: nat)
    requires Inv(s) && Lost(s, i) && Next(s, action).Some?
    ensures Lost(Next(s, action).value, i)
  {
    var t := Next(s, action).value;
    ClosedGrowsByOne(s, action);
    CampaignStep(s, action);
    assert t.memory.closed[i] == s.memory.closed[i];
    LostIsNotRowed(s, action, i);
    forall pid: Pid | At(t, pid) && PhaseOf(t, pid).Tagging?
      ensures PhaseOf(t, pid).taskId != s.memory.closed[i].tx.taskId
    {
      LostIsNotTagged(s, action, i, pid);
    }
  }
}
