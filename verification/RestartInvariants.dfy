/** What every run of the restart verification keeps. */
module RestartInvariants {
  import opened Options
  import opened RestartDecisions
  import opened RestartProtocol

  // ---- the lock: one holder, whose copy of the campaign is the file ----

  predicate HoldsLock(phase: Phase) {
    phase.Backfilling? || phase.Reconciling? || phase.Marking? || phase.Tagging? || phase.Unlocking?
  }

  ghost predicate LockInv(s: State) {
    && (s.lock.Some? ==> At(s, s.lock.value) && HoldsLock(PhaseOf(s, s.lock.value)))
    && (forall pid: Pid :: At(s, pid) && HoldsLock(PhaseOf(s, pid)) ==> s.lock == Some(pid))
    && (forall pid: Pid :: At(s, pid) && PhaseOf(s, pid).Reconciling? ==> PhaseOf(s, pid).copy == s.books.campaign)
    && (forall pid: Pid :: At(s, pid) && PhaseOf(s, pid).Marking? ==> PhaseOf(s, pid).copy == s.books.campaign)
  }

  lemma LockOutside(s: State, action: Action)
    requires LockInv(s) && NextOutside(s, action).Some?
    ensures LockInv(NextOutside(s, action).value)
  {
  }

  lemma LockBackfill(s: State, action: Action)
    requires action.LockForBackfill? || action.Backfill?
    requires LockInv(s) && NextClaiming(s, action).Some?
    ensures LockInv(NextClaiming(s, action).value)
  {
  }

  lemma LockClaiming(s: State, action: Action)
    requires action.RenameMarker? || action.ListClaims? || action.ScanNext? || action.ReadMarker?
    requires LockInv(s) && NextClaiming(s, action).Some?
    ensures LockInv(NextClaiming(s, action).value)
  {
    LockStands(s, NextClaiming(s, action).value);
  }

  lemma LockSettling(s: State, action: Action)
    requires action.Unlink? || action.LookToRestore? || action.RestoreMarker?
    requires LockInv(s) && NextClaiming(s, action).Some?
    ensures LockInv(NextClaiming(s, action).value)
  {
    LockStands(s, NextClaiming(s, action).value);
  }

  /** The lock and the campaign stand, and no worker comes by the lock or gives it up. */
  lemma LockStands(s: State, t: State)
    requires LockInv(s) && t.lock == s.lock && t.books.campaign == s.books.campaign
    requires forall pid: Pid :: At(t, pid) && HoldsLock(PhaseOf(t, pid)) ==>
      At(s, pid) && PhaseOf(s, pid) == PhaseOf(t, pid)
    requires s.lock.Some? ==> At(t, s.lock.value) && HoldsLock(PhaseOf(t, s.lock.value))
    ensures LockInv(t)
  {
  }

  predicate Writes(action: Action) {
    action.WriteReconciled? || action.WriteMarked?
  }

  predicate TakesLock(action: Action) {
    action.LockToReconcile? || action.LockToMark?
  }

  lemma LockWrites(s: State, action: Action)
    requires Writes(action) && LockInv(s) && NextLocked(s, action).Some?
    ensures LockInv(NextLocked(s, action).value)
  {
  }

  lemma LockTaken(s: State, action: Action)
    requires TakesLock(action) && LockInv(s) && NextLocked(s, action).Some?
    ensures LockInv(NextLocked(s, action).value)
  {
  }

  lemma LockLocked(s: State, action: Action)
    requires !Writes(action) && !TakesLock(action) && LockInv(s) && NextLocked(s, action).Some?
    ensures LockInv(NextLocked(s, action).value)
  {
  }

  lemma LockStep(s: State, action: Action)
    requires LockInv(s) && Next(s, action).Some?
    ensures LockInv(Next(s, action).value)
  {
    if NextOutside(s, action).Some? { LockOutside(s, action); }
    else if action.LockForBackfill? || action.Backfill? { LockBackfill(s, action); }
    else if action.Unlink? || action.LookToRestore? || action.RestoreMarker? { LockSettling(s, action); }
    else if NextClaiming(s, action).Some? { LockClaiming(s, action); }
    else if Writes(action) { LockWrites(s, action); }
    else if TakesLock(action) { LockTaken(s, action); }
    else { LockLocked(s, action); }
  }

  // ---- the marker: in exactly one place from the request to a durable outcome ----

  predicate Processing(phase: Phase) {
    || phase.Claimed? || phase.LockingMark? || phase.Marking? || (phase.Tagging? && phase.viaMarker)
    || (phase.Unlocking? && phase.viaMarker) || phase.Settling? || phase.Restoring?
  }

  /** No request: no file. One request: one file with it, the pending one or one claim. */
  ghost predicate OnePlace(files: Files) {
    match files.requested
    case None => files.pending.None? && files.claims == map[]
    case Some(m) =>
      || (files.pending == Some(m) && files.claims == map[])
      || (files.pending.None? && exists p: Pid :: files.claims == map[p := m])
  }

  ghost predicate HoldsMarker(files: Files, pid: Pid, phase: Phase) {
    && (Processing(phase) ==> pid in files.claims)
    && (phase.LockingMark? ==> pid in files.claims && files.claims[pid] == phase.marker)
    && (phase.Marking? ==> pid in files.claims && files.claims[pid] == phase.marker)
  }

  ghost predicate MarkerInv(s: State) {
    && OnePlace(s.files)
    && (forall pid: Pid :: At(s, pid) ==> HoldsMarker(s.files, pid, PhaseOf(s, pid)))
  }

  lemma MarkerOutside(s: State, action: Action)
    requires MarkerInv(s) && NextOutside(s, action).Some?
    ensures MarkerInv(NextOutside(s, action).value)
  {
    var t := NextOutside(s, action).value;
    forall pid: Pid | At(t, pid) ensures HoldsMarker(t.files, pid, PhaseOf(t, pid)) {
      assert At(s, pid) ==> HoldsMarker(s.files, pid, PhaseOf(s, pid));
    }
  }

  lemma MarkerClaiming(s: State, action: Action)
    requires MarkerInv(s) && NextClaiming(s, action).Some?
    ensures MarkerInv(NextClaiming(s, action).value)
  {
    var t := NextClaiming(s, action).value;
    match action {
      case RenameMarker(pid, fails) =>
        if s.files.pending.Some? && !fails { assert t.files.claims == map[pid := s.files.pending.value]; }
      case ScanNext(pid, fails) =>
        var first := PhaseOf(s, pid).todo;
        if first != [] && first[0] in s.files.claims && !At(s, first[0]) && !fails {
          assert t.files.claims == map[pid := s.files.claims[first[0]]];
        }
      case Unlink(pid, fails) =>
        assert HoldsMarker(s.files, pid, PhaseOf(s, pid));
        assert s.files.claims - {pid} == map[];
      case RestoreMarker(pid, fails) =>
        assert HoldsMarker(s.files, pid, PhaseOf(s, pid));
        assert s.files.claims - {pid} == map[];
      case _ =>
    }
    forall pid: Pid | At(t, pid) ensures HoldsMarker(t.files, pid, PhaseOf(t, pid)) {
      assert At(s, pid) ==> HoldsMarker(s.files, pid, PhaseOf(s, pid));
    }
  }

  lemma WrittenKeepsMarker(s: State, pid: Pid, decision: Decision, viaMarker: bool, facts: set<Fact>)
    requires MarkerInv(s) && At(s, pid) && (viaMarker ==> pid in s.files.claims)
    ensures MarkerInv(Written(s, pid, decision, viaMarker, facts))
  {
    var t := Written(s, pid, decision, viaMarker, facts);
    forall q: Pid | At(t, q) ensures HoldsMarker(t.files, q, PhaseOf(t, q)) {
      assert At(s, q) ==> HoldsMarker(s.files, q, PhaseOf(s, q));
    }
  }

  lemma MarkerWrites(s: State, action: Action)
    requires Writes(action) && MarkerInv(s) && NextLocked(s, action).Some?
    ensures MarkerInv(NextLocked(s, action).value)
  {
    var pid := action.pid;
    var phase, boot := PhaseOf(s, pid), s.workers[pid].boot;
    assert HoldsMarker(s.files, pid, phase);
    if action.fails {
      MarkerFails(s, pid, action.WriteMarked?);
    } else if action.WriteReconciled? {
      WrittenKeepsMarker(s, pid, Reconcile(phase.copy, boot, phase.snapshot, action.reading), false,
                         Facts(boot, ActiveTask(phase.copy), action.reading));
    } else {
      WrittenKeepsMarker(s, pid, MarkVerified(phase.copy, boot, phase.marker, action.reading), true, {});
    }
  }

  lemma MarkerFails(s: State, pid: Pid, viaMarker: bool)
    requires MarkerInv(s) && At(s, pid) && (viaMarker ==> pid in s.files.claims)
    ensures MarkerInv(To(s, pid, Unlocking(viaMarker, false)))
  {
    var t := To(s, pid, Unlocking(viaMarker, false));
    forall q: Pid | At(t, q) ensures HoldsMarker(t.files, q, PhaseOf(t, q)) {
      assert At(s, q) ==> HoldsMarker(s.files, q, PhaseOf(s, q));
    }
  }

  lemma MarkerLocked(s: State, action: Action)
    requires !Writes(action) && MarkerInv(s) && NextLocked(s, action).Some?
    ensures MarkerInv(NextLocked(s, action).value)
  {
    var t := NextLocked(s, action).value;
    forall pid: Pid | At(t, pid) ensures HoldsMarker(t.files, pid, PhaseOf(t, pid)) {
      assert At(s, pid) ==> HoldsMarker(s.files, pid, PhaseOf(s, pid));
    }
  }

  lemma MarkerStep(s: State, action: Action)
    requires MarkerInv(s) && Next(s, action).Some?
    ensures MarkerInv(Next(s, action).value)
  {
    if NextOutside(s, action).Some? { MarkerOutside(s, action); }
    else if NextClaiming(s, action).Some? { MarkerClaiming(s, action); }
    else if Writes(action) { MarkerWrites(s, action); }
    else { MarkerLocked(s, action); }
  }

  // ---- generations: the living belong to the current one ----

  ghost predicate BootInv(s: State) {
    && s.generation in s.memory.generations
    && (forall pid: Pid :: At(s, pid) ==> s.workers[pid].boot.generation == s.generation)
    && (forall i :: 0 <= i < |s.memory.closed| ==> s.memory.closed[i].boot.generation in s.memory.generations)
  }

  lemma BootOutside(s: State, action: Action)
    requires BootInv(s) && NextOutside(s, action).Some?
    ensures BootInv(NextOutside(s, action).value)
  {
    var t := NextOutside(s, action).value;
    forall pid: Pid | At(t, pid) ensures t.workers[pid].boot.generation == t.generation {
      assert At(s, pid) ==> s.workers[pid].boot.generation == s.generation;
    }
  }

  lemma BootClaiming(s: State, action: Action)
    requires BootInv(s) && NextClaiming(s, action).Some?
    ensures BootInv(NextClaiming(s, action).value)
  {
    var t := NextClaiming(s, action).value;
    forall pid: Pid | At(t, pid) ensures t.workers[pid].boot.generation == t.generation {
      assert At(s, pid) ==> s.workers[pid].boot.generation == s.generation;
    }
  }

  lemma BootWrites(s: State, action: Action)
    requires Writes(action) && BootInv(s) && NextLocked(s, action).Some?
    ensures BootInv(NextLocked(s, action).value)
  {
    var t := NextLocked(s, action).value;
    forall pid: Pid | At(t, pid) ensures t.workers[pid].boot.generation == t.generation {
      assert At(s, pid) ==> s.workers[pid].boot.generation == s.generation;
    }
  }

  lemma BootLocked(s: State, action: Action)
    requires !Writes(action) && BootInv(s) && NextLocked(s, action).Some?
    ensures BootInv(NextLocked(s, action).value)
  {
    var t := NextLocked(s, action).value;
    forall pid: Pid | At(t, pid) ensures t.workers[pid].boot.generation == t.generation {
      assert At(s, pid) ==> s.workers[pid].boot.generation == s.generation;
    }
  }

  lemma BootStep(s: State, action: Action)
    requires BootInv(s) && Next(s, action).Some?
    ensures BootInv(Next(s, action).value)
  {
    if NextOutside(s, action).Some? { BootOutside(s, action); }
    else if NextClaiming(s, action).Some? { BootClaiming(s, action); }
    else if Writes(action) { BootWrites(s, action); }
    else { BootLocked(s, action); }
  }
}
