/** Many booting workers, one restart marker, one campaign file, one ledger: every run of the
    restart verification, with crashes between any two steps.

    A step is one rename, one locked read, one atomic write, one append or one release. Only a
    holder of the state lock writes the campaign or the ledger; the lock of a dead process is
    released. */
module RestartProtocol {
  import opened Options
  import opened RestartDecisions

  type Pid = nat

  datatype Phase =
    | Booting
    | Backfilling
    | Claiming
    | Listing
    | Scanning(todo: seq<Pid>)
    | Snapping
    | LockingReconcile(snapshot: Snapshot)
    | Reconciling(snapshot: Snapshot, copy: Campaign)
    | Claimed
    | LockingMark(marker: Marker)
    | Marking(marker: Marker, copy: Campaign)
    | Tagging(taskId: string, viaMarker: bool)
    | Unlocking(viaMarker: bool, durable: bool)
    | Settling(durable: bool)
    | Restoring
    | Finished

  datatype Worker = Worker(alive: bool, boot: Boot, phase: Phase)

  /** What Git answered, when it was asked; `Unanswered` is a check that failed or timed out. */
  datatype Fact =
    | Contains(head: string, commit: string)
    | Lacks(head: string, commit: string)
    | Unanswered(head: string, commit: string)
    | NotHeld(taskId: string, commit: string)
    | IntentAt(head: string, commit: string)
    | IntentInCandidate(taskId: string, commit: string)

  /** One transaction closed at boot. */
  datatype Closure = Closure(tx: Tx, boot: Boot, viaMarker: bool, receiptValid: bool)

  /** The marker file, the claim files of the workers by pid, and the request they carry. */
  datatype Files = Files(pending: Option<Marker>, claims: map<Pid, Marker>, requested: Option<Marker>)

  /** The campaign file and the tasks with a row in the ledger, oldest first. */
  datatype Books = Books(campaign: Campaign, tags: seq<string>)

  /** What the run remembers and no program variable holds. */
  datatype Memory = Memory(
    closed: seq<Closure>,
    facts: set<Fact>,
    txIds: set<string>,
    taskIds: set<string>,
    generations: set<string>)

  datatype State = State(
    files: Files,
    books: Books,
    lock: Option<Pid>,
    workers: map<Pid, Worker>,
    generation: string,
    memory: Memory)

  predicate Initial(s: State) {
    && s.files == Files(None, map[], None)
    && s.books.campaign.active.None? && s.books.campaign.absorbedDone == 0 && s.books.campaign.history == []
    && s.books.tags == [] && s.lock.None? && s.workers == map[]
    && s.memory == Memory([], {}, {}, {}, {s.generation})
    && s.books.campaign.stamp == ""
  }

  datatype Action =
    // the rest of the program, each change under the same lock
    | Begin(tx: Tx)
    | RecordCommit(commit: string, withReceipt: bool)
    | SetStatus(running: bool, stopIntent: bool)
    | RestampByOwner
    | RequestRestart(marker: Marker)
    | NextGeneration(generation: string)
    | Spawn(pid: Pid, sha: string)
    | Crash(pid: Pid)
    // one worker
    | LockForBackfill(pid: Pid, acquired: bool)
    | Backfill(pid: Pid, upto: nat)
    | RenameMarker(pid: Pid, fails: bool)
    | ListClaims(pid: Pid, found: seq<Pid>)
    | ScanNext(pid: Pid, fails: bool)
    | Snap(pid: Pid, contained: Option<bool>, held: Option<bool>)
    | LockToReconcile(pid: Pid, acquired: bool)
    | WriteReconciled(pid: Pid, reading: Reading, fails: bool)
    | ReadMarker(pid: Pid)
    | LockToMark(pid: Pid, acquired: bool)
    | WriteMarked(pid: Pid, reading: Reading, fails: bool)
    | Tag(pid: Pid, fails: bool)
    | Unlock(pid: Pid)
    | Unlink(pid: Pid, fails: bool)
    | LookToRestore(pid: Pid)
    | RestoreMarker(pid: Pid, fails: bool)

  predicate At(s: State, pid: Pid) {
    pid in s.workers && s.workers[pid].alive
  }

  function PhaseOf(s: State, pid: Pid): Phase
    requires At(s, pid)
  {
    s.workers[pid].phase
  }

  function To(s: State, pid: Pid, phase: Phase): State
    requires At(s, pid)
  {
    s.(workers := s.workers[pid := s.workers[pid].(phase := phase)])
  }

  // ---- the ledger repair ----

  predicate Resolved(tx: Tx) {
    !tx.outcome.Open? && tx.taskId != "" && tx.commit != ""
  }

  /** The tasks of resolved transactions in the history that have no ledger row, each once. */
  function Missing(history: seq<Tx>, tags: seq<string>): seq<string> {
    if history == [] then []
    else
      var rest := Missing(history[..|history| - 1], tags);
      var tx := history[|history| - 1];
      if Resolved(tx) && tx.taskId !in tags && tx.taskId !in rest then rest + [tx.taskId] else rest
  }

  // ---- steps ----

  function Facts(boot: Boot, taskId: string, reading: Reading): set<Fact> {
    (if reading.intentAtHead == "" then {}
     else if boot.sha != "" then {IntentAt(boot.sha, reading.intentAtHead)}
     else {IntentInCandidate(taskId, reading.intentAtHead)}) +
    (if reading.intentInCandidate == "" then {} else {IntentInCandidate(taskId, reading.intentInCandidate)})
  }

  function ActiveTask(campaign: Campaign): string {
    if campaign.active.Some? then campaign.active.value.taskId else ""
  }

  function ActiveCommit(campaign: Campaign): string {
    if campaign.active.Some? then campaign.active.value.commit else ""
  }

  /** The unlocked look: a check that Git did not answer counts as not contained. */
  function Looked(campaign: Campaign, sha: string, contained: Option<bool>, held: Option<bool>): Snapshot {
    var commit := ActiveCommit(campaign);
    var seen := commit != "" && (contained == Some(true) || commit == sha);
    Snapshot(commit, seen, ActiveTask(campaign), if commit != "" && !seen then held else None)
  }

  function LookFacts(campaign: Campaign, sha: string, contained: Option<bool>, held: Option<bool>): set<Fact> {
    var look := Looked(campaign, sha, contained, held);
    (if look.commit == "" then {}
     else if look.reachable then {Contains(sha, look.commit)}
     else if contained.Some? then {Lacks(sha, look.commit)}
     else {Unanswered(sha, look.commit)}) +
    (if look.held == Some(false) then {NotHeld(look.taskId, look.commit)} else {})
  }

  /** A decision written to disk, remembered by the run; the ledger row comes in a later step. */
  function Written(s: State, pid: Pid, decision: Decision, viaMarker: bool, facts: set<Fact>): State
    requires At(s, pid)
  {
    var boot := s.workers[pid].boot;
    var next := s.(books := s.books.(campaign := decision.write.GetOr(s.books.campaign)),
                   memory := s.memory.(facts := s.memory.facts + facts));
    match decision.closes
    case None => To(next, pid, Unlocking(viaMarker, decision.durable))
    case Some(tx) =>
      var closure := Closure(tx, boot, viaMarker, ReceiptValid(s.books.campaign, tx));
      var closed := next.(memory := next.memory.(closed := s.memory.closed + [closure]));
      if tx.outcome.Open? then To(closed, pid, Unlocking(viaMarker, decision.durable))
      else To(closed, pid, Tagging(tx.taskId, viaMarker))
  }

  /** A transaction as a campaign starts it, new to the run. */
  predicate Startable(memory: Memory, tx: Tx) {
    && tx.id != "" && tx.taskId != "" && tx.id !in memory.txIds && tx.taskId !in memory.taskIds
    && Fresh(tx) && tx.commit == "" && tx.receipt.None? && !tx.restartVerified
  }

  function NextOutside(s: State, action: Action): Option<State> {
    match action
    case Begin(tx) =>
      if s.lock.None? && s.books.campaign.active.None? && Startable(s.memory, tx) then
        Some(s.(books := s.books.(campaign := s.books.campaign.(active := Some(tx))),
                memory := s.memory.(txIds := s.memory.txIds + {tx.id}, taskIds := s.memory.taskIds + {tx.taskId})))
      else None
    case RecordCommit(commit, withReceipt) =>
      if s.lock.None? && s.books.campaign.active.Some? && commit != "" &&
        ActiveCommit(s.books.campaign) in {"", commit} then
        var tx := s.books.campaign.active.value;
        var recorded :=
          if withReceipt then Adopted(s.books.campaign, tx, commit)
            else tx.(commit := commit, restartVerified := false);
        Some(s.(books := s.books.(campaign := s.books.campaign.(active := Some(recorded)))))
      else None
    case SetStatus(running, stopIntent) =>
      if s.lock.None? then
        Some(s.(books := s.books.(campaign := s.books.campaign.(running := running, stopIntent := stopIntent))))
      else None
    case RestampByOwner =>
      if s.lock.None? then Some(s.(books := s.books.(campaign := Stamped(s.books.campaign, s.generation))))
      else None
    case RequestRestart(marker) =>
      if s.files.requested.None? then
        Some(s.(files := s.files.(pending := Some(marker), requested := Some(marker))))
      else None
    case NextGeneration(generation) =>
      if (forall pid :: pid in s.workers ==> !s.workers[pid].alive) &&
         (generation == "" || generation !in s.memory.generations) then
        Some(s.(generation := generation, memory := s.memory.(generations := s.memory.generations + {generation})))
      else None
    case Spawn(pid, sha) =>
      if pid in s.workers then None
      else Some(s.(workers := s.workers[pid := Worker(true, Boot(s.generation, sha), Booting)]))
    case Crash(pid) =>
      if At(s, pid) then
        Some(s.(workers := s.workers[pid := s.workers[pid].(alive := false, phase := Finished)],
                lock := if s.lock == Some(pid) then None else s.lock))
      else None
    case _ => None
  }

  function NextClaiming(s: State, action: Action): Option<State> {
    match action
    case LockForBackfill(pid, acquired) =>
      if !At(s, pid) || !PhaseOf(s, pid).Booting? then None
      else if !acquired then Some(To(s, pid, Claiming))
      else if s.lock.None? then Some(To(s, pid, Backfilling).(lock := Some(pid)))
      else None
    case Backfill(pid, upto) =>
      var missing := Missing(s.books.campaign.history, s.books.tags);
      if At(s, pid) && PhaseOf(s, pid).Backfilling? && upto <= |missing| then
        Some(To(s, pid, Claiming).(books := s.books.(tags := s.books.tags + missing[..upto]), lock := None))
      else None
    case RenameMarker(pid, fails) =>
      if !At(s, pid) || !PhaseOf(s, pid).Claiming? then None
      else if s.files.pending.Some? && !fails then
        Some(To(s, pid, Claimed)
             .(files := s.files.(pending := None, claims := s.files.claims[pid := s.files.pending.value])))
      else Some(To(s, pid, Listing))
    case ListClaims(pid, found) =>
      if At(s, pid) && PhaseOf(s, pid).Listing? && (set q | q in found) == s.files.claims.Keys then
        Some(To(s, pid, if found == [] then Snapping else Scanning(found)))
      else None
    case ScanNext(pid, fails) =>
      if !At(s, pid) || !PhaseOf(s, pid).Scanning? then None
      else
        var todo := PhaseOf(s, pid).todo;
        if todo == [] || At(s, todo[0]) then Some(To(s, pid, Finished))
        else if todo[0] in s.files.claims && !fails then
          Some(To(s, pid, Claimed)
               .(files := s.files.(claims := (s.files.claims - {todo[0]})[pid := s.files.claims[todo[0]]])))
        else Some(To(s, pid, Scanning(todo[1..])))
    case ReadMarker(pid) =>
      if At(s, pid) && PhaseOf(s, pid).Claimed? && pid in s.files.claims then
        Some(To(s, pid, LockingMark(s.files.claims[pid])))
      else None
    case Unlink(pid, fails) =>
      if At(s, pid) && PhaseOf(s, pid) == Settling(true) then
        var done := To(s, pid, Finished);
        Some(if fails then done else done.(files := s.files.(claims := s.files.claims - {pid}, requested := None)))
      else None
    case LookToRestore(pid) =>
      if At(s, pid) && PhaseOf(s, pid) == Settling(false) then
        Some(To(s, pid, if pid in s.files.claims && s.files.pending.None? then Restoring else Finished))
      else None
    case RestoreMarker(pid, fails) =>
      if At(s, pid) && PhaseOf(s, pid).Restoring? && pid in s.files.claims then
        var done := To(s, pid, Finished);
        Some(if fails then done
             else done.(files := s.files.(pending := Some(s.files.claims[pid]), claims := s.files.claims - {pid})))
      else None
    case _ => None
  }

  function NextLocked(s: State, action: Action): Option<State> {
    match action
    case Snap(pid, contained, held) =>
      if At(s, pid) && PhaseOf(s, pid).Snapping? then
        var sha := s.workers[pid].boot.sha;
        Some(To(s, pid, LockingReconcile(Looked(s.books.campaign, sha, contained, held)))
             .(memory := s.memory.(facts := s.memory.facts + LookFacts(s.books.campaign, sha, contained, held))))
      else None
    case LockToReconcile(pid, acquired) =>
      if !At(s, pid) || !PhaseOf(s, pid).LockingReconcile? then None
      else if !acquired then Some(To(s, pid, Finished))
      else if s.lock.None? then
        Some(To(s, pid, Reconciling(PhaseOf(s, pid).snapshot, s.books.campaign)).(lock := Some(pid)))
      else None
    case WriteReconciled(pid, reading, fails) =>
      if !At(s, pid) || !PhaseOf(s, pid).Reconciling? then None
      else if fails then Some(To(s, pid, Unlocking(false, false)))
      else
        var phase, boot := PhaseOf(s, pid), s.workers[pid].boot;
        Some(Written(s, pid, Reconcile(phase.copy, boot, phase.snapshot, reading), false,
                     Facts(boot, ActiveTask(phase.copy), reading)))
    case LockToMark(pid, acquired) =>
      if !At(s, pid) || !PhaseOf(s, pid).LockingMark? then None
      else if !acquired then Some(To(s, pid, Settling(false)))
      else if s.lock.None? then Some(To(s, pid, Marking(PhaseOf(s, pid).marker, s.books.campaign)).(lock := Some(pid)))
      else None
    case WriteMarked(pid, reading, fails) =>
      if !At(s, pid) || !PhaseOf(s, pid).Marking? then None
      else if fails then Some(To(s, pid, Unlocking(true, false)))
      else
        var phase := PhaseOf(s, pid);
        Some(Written(s, pid, MarkVerified(phase.copy, s.workers[pid].boot, phase.marker, reading), true, {}))
    case Tag(pid, fails) =>
      if At(s, pid) && PhaseOf(s, pid).Tagging? then
        var phase := PhaseOf(s, pid);
        var done := To(s, pid, Unlocking(phase.viaMarker, true));
        Some(if fails then done else done.(books := s.books.(tags := s.books.tags + [phase.taskId])))
      else None
    case Unlock(pid) =>
      if At(s, pid) && PhaseOf(s, pid).Unlocking? then
        var phase := PhaseOf(s, pid);
        Some(To(s, pid, if phase.viaMarker then Settling(phase.durable) else Finished).(lock := None))
      else None
    case _ => None
  }

  function Next(s: State, action: Action): Option<State> {
    var outside := NextOutside(s, action);
    var claiming := NextClaiming(s, action);
    if outside.Some? then outside else if claiming.Some? then claiming else NextLocked(s, action)
  }

  /** The state a run leads to, or None when some action was not open. */
  function Run(s: State, actions: seq<Action>): Option<State>
    decreases |actions|
  {
    if actions == [] then Some(s)
    else match Next(s, actions[0])
      case None => None
      case Some(t) => Run(t, actions[1..])
  }

  lemma RunStep(s: State, action: Action, t: State, rest: seq<Action>)
    requires Next(s, action) == Some(t)
    ensures Run(s, [action] + rest) == Run(t, rest)
  {
    assert ([action] + rest)[1..] == rest;
  }
}
