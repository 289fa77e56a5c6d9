/** On what evidence any run absorbs or abandons, and exactly when that evidence is proof. */
module RestartEvidence {
  import opened Options
  import opened RestartDecisions
  import opened RestartProtocol
  import opened RestartAuthority
  import opened RestartRuns

  ghost predicate ServingProof(facts: set<Fact>, closure: Closure) {
    var sha, commit := closure.boot.sha, closure.tx.commit;
    commit == sha || Contains(sha, commit) in facts || IntentAt(sha, commit) in facts
  }

  /** An abandoned commit was not held, and Git denied that the serving SHA contains it or did
      not answer; a bound transaction is closed only with its valid receipt. */
  lemma ClosuresHaveEvidence(start: State, actions: seq<Action>, i: nat)
    requires Initial(start) && Run(start, actions).Some? && i < |Run(start, actions).value.memory.closed|
    ensures var s := Run(start, actions).value;
      var closure := s.memory.closed[i];
      var sha, tx := closure.boot.sha, closure.tx;
      && (Bound(tx) ==> closure.receiptValid)
      && (tx.outcome.Abandoned? ==>
            NotContained(s.memory.facts, sha, tx.commit) && NotHeld(tx.taskId, tx.commit) in s.memory.facts)
      && (tx.outcome.Absorbed? && sha != "" ==> ServingProof(s.memory.facts, closure))
  {
    RunKeeps(start, actions);
    assert Justified(Run(start, actions).value.memory.facts, Run(start, actions).value.memory.closed[i]);
  }

  // ---- runs of one worker that finds no marker ----

  function Seen(s: State, sha: string, contained: Option<bool>, held: Option<bool>): State {
    s.(memory := s.memory.(facts := s.memory.facts + LookFacts(s.books.campaign, sha, contained, held)))
  }

  function UpToLook(
      pid: Pid, sha: string, contained: Option<bool>, held: Option<bool>, rest: seq<Action>): seq<Action> {
    UpToListing(pid, sha, [ListClaims(pid, [])] + ([Snap(pid, contained, held)] + rest))
  }

  lemma ListsNone(s: State, pid: Pid, sha: string, rest: seq<Action>)
    requires s.files.claims == map[]
    ensures Run(Booted(s, pid, sha, Listing), [ListClaims(pid, [])] + rest) == Run(Booted(s, pid, sha, Snapping), rest)
  {
    Advances(s, pid, sha, Listing, Snapping);
    RunStep(Booted(s, pid, sha, Listing), ListClaims(pid, []), Booted(s, pid, sha, Snapping), rest);
  }

  lemma Snaps(s: State, pid: Pid, sha: string, contained: Option<bool>, held: Option<bool>, rest: seq<Action>)
    ensures Run(Booted(s, pid, sha, Snapping), [Snap(pid, contained, held)] + rest)
         == Run(Booted(Seen(s, sha, contained, held), pid, sha,
                       LockingReconcile(Looked(s.books.campaign, sha, contained, held))), rest)
  {
    var look := LockingReconcile(Looked(s.books.campaign, sha, contained, held));
    Advances(s, pid, sha, Snapping, look);
    RunStep(Booted(s, pid, sha, Snapping), Snap(pid, contained, held),
      Booted(Seen(s, sha, contained, held), pid, sha, look), rest);
  }

  lemma BootsToLook(
      s: State, pid: Pid, sha: string, contained: Option<bool>, held: Option<bool>, rest: seq<Action>)
    requires s.files.pending.None? && s.files.claims == map[] && pid !in s.workers
    ensures Run(s, UpToLook(pid, sha, contained, held, rest))
         == Run(Booted(Seen(s, sha, contained, held), pid, sha,
                       LockingReconcile(Looked(s.books.campaign, sha, contained, held))), rest)
  {
    BootsToListing(s, pid, sha, [ListClaims(pid, [])] + ([Snap(pid, contained, held)] + rest));
    ListsNone(s, pid, sha, [Snap(pid, contained, held)] + rest);
    Snaps(s, pid, sha, contained, held, rest);
  }

  /** The worker once it holds the lock. */
  function Holding(s: State, pid: Pid, sha: string, snapshot: Snapshot): State {
    Booted(s, pid, sha, Reconciling(snapshot, s.books.campaign)).(lock := Some(pid))
  }

  function After(s: State, pid: Pid, sha: string, snapshot: Snapshot, reading: Reading): State {
    var boot := Boot(s.generation, sha);
    Written(Holding(s, pid, sha, snapshot), pid, Reconcile(s.books.campaign, boot, snapshot, reading), false,
            Facts(boot, ActiveTask(s.books.campaign), reading))
  }

  function LockAndWrite(pid: Pid, reading: Reading, rest: seq<Action>): seq<Action> {
    [LockToReconcile(pid, true)] + ([WriteReconciled(pid, reading, false)] + rest)
  }

  lemma LocksAndWrites(s: State, pid: Pid, sha: string, snapshot: Snapshot, reading: Reading, rest: seq<Action>)
    requires s.lock.None?
    ensures Run(Booted(s, pid, sha, LockingReconcile(snapshot)), LockAndWrite(pid, reading, rest))
         == Run(After(s, pid, sha, snapshot, reading), rest)
  {
    var looked, write := Booted(s, pid, sha, LockingReconcile(snapshot)), WriteReconciled(pid, reading, false);
    Advances(s, pid, sha, LockingReconcile(snapshot), Reconciling(snapshot, s.books.campaign));
    RunStep(looked, LockToReconcile(pid, true), Holding(s, pid, sha, snapshot), [write] + rest);
    RunStep(Holding(s, pid, sha, snapshot), write, After(s, pid, sha, snapshot, reading), rest);
  }

  // ---- an unknown serving SHA ----

  /** In every run, what a worker that observed `sha` absorbed is proven at the serving SHA. */
  ghost predicate AbsorbsOnlyServing(sha: string) {
    forall start: State, actions: seq<Action> | Initial(start) && Run(start, actions).Some? ::
      var memory := Run(start, actions).value.memory;
      forall i | 0 <= i < |memory.closed| && memory.closed[i].boot.sha == sha &&
        memory.closed[i].tx.outcome.Absorbed? ::
        ServingProof(memory.facts, memory.closed[i])
  }

  const NEW_TX := Tx("t", "k", true, None, "", false, false, Open)
  const EMPTY_STATE := State(
    Files(None, map[], None), Books(Campaign("e", true, false, "", None, 0, []), []), None, map[], "g",
    Memory([], {}, {}, {}, {"g"}))
  const BEGUN := EMPTY_STATE.(
    books := Books(Campaign("e", true, false, "", Some(NEW_TX), 0, []), []),
    memory := Memory([], {}, {"t"}, {"k"}, {"g"}))
  const ONLY_IN_CANDIDATE := Reading(true, false, "c", "")
  const UNKNOWN_LOOK := Snapshot("", false, "k", None)

  lemma Begins(rest: seq<Action>)
    ensures Run(EMPTY_STATE, [Begin(NEW_TX)] + rest) == Run(BEGUN, rest)
  {
    assert {} + {"t"} == {"t"} && {} + {"k"} == {"k"};
    RunStep(EMPTY_STATE, Begin(NEW_TX), BEGUN, rest);
  }

  function BlindRun(): seq<Action> {
    [Begin(NEW_TX)] + UpToLook(0, "", None, None, LockAndWrite(0, ONLY_IN_CANDIDATE, []))
  }

  lemma BlindRunEnds()
    ensures Run(EMPTY_STATE, BlindRun()) == Some(After(BEGUN, 0, "", UNKNOWN_LOOK, ONLY_IN_CANDIDATE))
  {
    Begins(UpToLook(0, "", None, None, LockAndWrite(0, ONLY_IN_CANDIDATE, [])));
    BootsToLook(BEGUN, 0, "", None, None, LockAndWrite(0, ONLY_IN_CANDIDATE, []));
    assert BEGUN.memory.facts + LookFacts(BEGUN.books.campaign, "", None, None) == {};
    LocksAndWrites(BEGUN, 0, "", UNKNOWN_LOOK, ONLY_IN_CANDIDATE, []);
  }

  lemma AbsorbsBlindly()
    ensures var memory := After(BEGUN, 0, "", UNKNOWN_LOOK, ONLY_IN_CANDIDATE).memory;
      && |memory.closed| == 1 && memory.closed[0].boot.sha == "" && memory.closed[0].tx.outcome.Absorbed?
      && !ServingProof(memory.facts, memory.closed[0])
  {
    assert Facts(Boot("g", ""), "k", ONLY_IN_CANDIDATE) == {IntentInCandidate("k", "c")};
  }

  /** With no SHA observed, the intent's commit is read in the task's candidate, and absorbed. */
  lemma UnknownShaAbsorbsCandidate()
    ensures !AbsorbsOnlyServing("")
  {
    BlindRunEnds();
    AbsorbsBlindly();
    assert Initial(EMPTY_STATE) && Run(EMPTY_STATE, BlindRun()).Some?;
  }

  /** An absorbed commit is always proven at the serving SHA exactly when that SHA was observed. */
  lemma AbsorbsOnlyServingWhenObserved(sha: string)
    ensures AbsorbsOnlyServing(sha) <==> sha != ""
  {
    if sha == "" {
      UnknownShaAbsorbsCandidate();
    } else {
      forall start: State, actions: seq<Action>, i |
          Initial(start) && Run(start, actions).Some? && 0 <= i < |Run(start, actions).value.memory.closed| &&
          Run(start, actions).value.memory.closed[i].boot.sha == sha &&
          Run(start, actions).value.memory.closed[i].tx.outcome.Absorbed?
        ensures ServingProof(Run(start, actions).value.memory.facts, Run(start, actions).value.memory.closed[i])
      {
        ClosuresHaveEvidence(start, actions, i);
      }
    }
  }

  // ---- a Git that does not answer ----

  ghost predicate AnswersIn(actions: seq<Action>, answers: set<Option<bool>>) {
    forall i :: 0 <= i < |actions| && actions[i].Snap? ==> actions[i].contained in answers
  }

  ghost predicate DeniedByGit(memory: Memory, i: nat)
    requires i < |memory.closed|
  {
    Lacks(memory.closed[i].boot.sha, memory.closed[i].tx.commit) in memory.facts
  }

  /** In every run whose ancestry checks end in one of `answers` (None: an error or a timeout),
      an abandoned commit is one that Git said the serving SHA does not contain. */
  ghost predicate AbandonsOnlyDenied(answers: set<Option<bool>>) {
    forall start: State, actions: seq<Action> | Initial(start) && Run(start, actions).Some? &&
      AnswersIn(actions, answers) ::
      var memory := Run(start, actions).value.memory;
      forall i | 0 <= i < |memory.closed| && memory.closed[i].tx.outcome.Abandoned? :: DeniedByGit(memory, i)
  }

  ghost predicate NoSilence(s: State) {
    forall sha, commit :: Unanswered(sha, commit) !in s.memory.facts
  }

  lemma ClaimingLearnsNothing(s: State, action: Action)
    requires NextClaiming(s, action).Some?
    ensures NextClaiming(s, action).value.memory.facts == s.memory.facts
  {
  }

  lemma AnsweredStep(s: State, action: Action)
    requires NoSilence(s) && Next(s, action).Some? && (action.Snap? ==> action.contained.Some?)
    ensures NoSilence(Next(s, action).value)
  {
    if NextOutside(s, action).None? && NextClaiming(s, action).Some? { ClaimingLearnsNothing(s, action); }
  }

  lemma {:induction false} AnsweredRun(s: State, actions: seq<Action>, answers: set<Option<bool>>)
    requires NoSilence(s) && Run(s, actions).Some? && AnswersIn(actions, answers) && None !in answers
    ensures NoSilence(Run(s, actions).value)
    decreases |actions|
  {
    if actions != [] {
      assert actions[0].Snap? ==> actions[0].contained in answers;
      AnsweredStep(s, actions[0]);
      assert forall i :: 0 <= i < |actions[1..]| ==> actions[1..][i] == actions[i + 1];
      AnsweredRun(Next(s, actions[0]).value, actions[1..], answers);
    }
  }

  const COMMITTED_TX := NEW_TX.(commit := "c", receipt := Some(CommitReceipt(true, "e", "t", "k", "c")))
  const COMMITTED := BEGUN.(books := Books(Campaign("e", true, false, "", Some(COMMITTED_TX), 0, []), []))
  const NO_INTENT := Reading(true, false, "", "")
  const SILENT_LOOK := Snapshot("c", false, "k", Some(false))

  lemma Commits(rest: seq<Action>)
    ensures Run(EMPTY_STATE, [Begin(NEW_TX)] + ([RecordCommit("c", true)] + rest)) == Run(COMMITTED, rest)
  {
    Begins([RecordCommit("c", true)] + rest);
    RunStep(BEGUN, RecordCommit("c", true), COMMITTED, rest);
  }

  function SilentBoot(pid: Pid): seq<Action> {
    UpToLook(pid, "h", None, Some(false), LockAndWrite(pid, NO_INTENT, []))
  }

  /** The state a worker leaves that asked a silent Git, of a campaign with one commit. */
  function Silenced(s: State, pid: Pid): State {
    After(Seen(s, "h", None, Some(false)), pid, "h", SILENT_LOOK, NO_INTENT)
  }

  ghost predicate HoldsCommitted(s: State) {
    && s.books == COMMITTED.books && s.lock.None? && s.files == Files(None, map[], None)
    && s.generation == "g" && s.memory.closed == []
  }

  lemma SilentBootRuns(s: State, pid: Pid)
    requires HoldsCommitted(s) && pid !in s.workers
    ensures Run(s, SilentBoot(pid)) == Some(Silenced(s, pid))
  {
    BootsToLook(s, pid, "h", None, Some(false), LockAndWrite(pid, NO_INTENT, []));
    LocksAndWrites(Seen(s, "h", None, Some(false)), pid, "h", SILENT_LOOK, NO_INTENT, []);
  }

  lemma SilenceAbandons(s: State, pid: Pid)
    requires HoldsCommitted(s)
    ensures |Silenced(s, pid).memory.closed| == 1
    ensures var closure := Silenced(s, pid).memory.closed[0];
      closure.tx.outcome.Abandoned? && closure.boot.sha == "h" && closure.tx.commit == "c"
    ensures Silenced(s, pid).memory.facts == s.memory.facts + {Unanswered("h", "c"), NotHeld("k", "c")}
  {
    assert LookFacts(s.books.campaign, "h", None, Some(false)) == {Unanswered("h", "c"), NotHeld("k", "c")};
    assert Facts(Boot("g", "h"), "k", NO_INTENT) == {};
  }

  function SilentRun(): seq<Action> {
    [Begin(NEW_TX)] + ([RecordCommit("c", true)] + SilentBoot(0))
  }

  lemma SilentRunAsksOnce()
    ensures AnswersIn(SilentRun(), {None})
  {
  }

  lemma SilenceRefutes(answers: set<Option<bool>>)
    requires None in answers
    ensures !AbandonsOnlyDenied(answers)
  {
    Commits(SilentBoot(0));
    SilentBootRuns(COMMITTED, 0);
    SilenceAbandons(COMMITTED, 0);
    SilentRunAsksOnce();
    assert Initial(EMPTY_STATE) && Run(EMPTY_STATE, SilentRun()).Some? && AnswersIn(SilentRun(), answers);
    assert !DeniedByGit(Silenced(COMMITTED, 0).memory, 0);
  }

  /** Every abandoned commit is one that Git denied exactly when Git always answers. */
  lemma AbandonsOnlyDeniedWhenAnswered(answers: set<Option<bool>>)
    ensures AbandonsOnlyDenied(answers) <==> None !in answers
  {
    if None in answers {
      SilenceRefutes(answers);
    } else {
      forall start: State, actions: seq<Action>, i |
          Initial(start) && Run(start, actions).Some? && AnswersIn(actions, answers) &&
          0 <= i < |Run(start, actions).value.memory.closed| &&
          Run(start, actions).value.memory.closed[i].tx.outcome.Abandoned?
        ensures DeniedByGit(Run(start, actions).value.memory, i)
      {
        ClosuresHaveEvidence(start, actions, i);
        AnsweredRun(start, actions, answers);
      }
    }
  }

  ghost predicate AbandonsContained(memory: Memory) {
    exists i :: 0 <= i < |memory.closed| && memory.closed[i].tx.outcome.Abandoned? && Contained(memory, i)
  }

  ghost predicate Contained(memory: Memory, i: nat)
    requires i < |memory.closed|
  {
    Contains(memory.closed[i].boot.sha, memory.closed[i].tx.commit) in memory.facts
  }

  /** A worker that saw the commit contained and then found the lock taken. */
  function Left(): State {
    Booted(Seen(COMMITTED, "h", Some(true), None), 0, "h", Finished)
  }

  lemma LooksAndLeaves(rest: seq<Action>)
    ensures Run(COMMITTED, UpToLook(0, "h", Some(true), None, [LockToReconcile(0, false)] + rest)) == Run(Left(), rest)
  {
    var seen, look := Seen(COMMITTED, "h", Some(true), None), Looked(COMMITTED.books.campaign, "h", Some(true), None);
    BootsToLook(COMMITTED, 0, "h", Some(true), None, [LockToReconcile(0, false)] + rest);
    Advances(seen, 0, "h", LockingReconcile(look), Finished);
    RunStep(Booted(seen, 0, "h", LockingReconcile(look)), LockToReconcile(0, false), Left(), rest);
  }

  function ContradictedRun(): seq<Action> {
    [Begin(NEW_TX)] + ([RecordCommit("c", true)] +
      UpToLook(0, "h", Some(true), None, [LockToReconcile(0, false)] + SilentBoot(1)))
  }

  /** Worse than silence: one worker learns that the serving SHA contains the commit and finds
      the lock taken; the next asks the same of a Git that times out, and abandons it. */
  lemma SilenceAbandonsTheContained()
    ensures Run(EMPTY_STATE, ContradictedRun()).Some?
    ensures AbandonsContained(Run(EMPTY_STATE, ContradictedRun()).value.memory)
  {
    Commits(UpToLook(0, "h", Some(true), None, [LockToReconcile(0, false)] + SilentBoot(1)));
    LooksAndLeaves(SilentBoot(1));
    SilentBootRuns(Left(), 1);
    SilenceAbandons(Left(), 1);
    LeftKnows();
    assert Contained(Silenced(Left(), 1).memory, 0);
  }

  lemma LeftKnows()
    ensures Contains("h", "c") in Left().memory.facts
  {
  }
}
