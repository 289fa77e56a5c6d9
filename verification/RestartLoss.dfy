/** How a row comes to be lost: crash after crash, each between the campaign write and the row. */
module RestartLoss {
  import opened Options
  import opened RestartDecisions
  import opened RestartProtocol
  import opened RestartRuns
  import opened RestartEvidence

  /** A text of a length of its own, for the names of one round. */
  function Name(n: nat): (name: string)
    ensures |name| == n + 1
  {
    if n == 0 then "i" else Name(n - 1) + "i"
  }

  function TxOf(n: nat): Tx {
    Tx(Name(n), Name(n), true, None, "", false, false, Open)
  }

  ghost predicate Shorter(names: set<string>, n: nat) {
    forall name :: name in names ==> |name| <= n
  }

  /** After `n` rounds: every worker dead, `n` resolved closures, no row, and the next names free. */
  ghost predicate Rounds(s: State, n: nat) {
    && s.files == Files(None, map[], None) && s.lock.None? && s.books.tags == []
    && s.books.campaign.running && !s.books.campaign.stopIntent && s.books.campaign.active.None?
    && (forall pid: Pid :: pid in s.workers ==> !s.workers[pid].alive && pid < n)
    && |s.memory.closed| == n && (forall i :: 0 <= i < n ==> !s.memory.closed[i].tx.outcome.Open?)
    && Shorter(s.memory.txIds, n) && Shorter(s.memory.taskIds, n) && Shorter(s.memory.generations, n)
    && |s.books.campaign.stamp| <= n
  }

  // ---- one round: a new server, a new transaction with its commit ----

  function Restarted(s: State, n: nat): State {
    s.(generation := Name(n), memory := s.memory.(generations := s.memory.generations + {Name(n)}))
  }

  function Begun(s: State, n: nat): State {
    s.(books := s.books.(campaign := s.books.campaign.(active := Some(TxOf(n)))),
       memory := s.memory.(txIds := s.memory.txIds + {Name(n)}, taskIds := s.memory.taskIds + {Name(n)}))
  }

  function CommittedTx(campaign: Campaign, n: nat): Tx {
    Adopted(campaign, TxOf(n), "c")
  }

  function WithCommit(s: State, n: nat): State {
    s.(books := s.books.(campaign := s.books.campaign.(active := Some(CommittedTx(s.books.campaign, n)))))
  }

  function Opened(s: State, n: nat): State {
    WithCommit(Begun(Restarted(s, n), n), n)
  }

  lemma Restarts(s: State, n: nat, rest: seq<Action>)
    requires Rounds(s, n)
    ensures Run(s, [NextGeneration(Name(n))] + rest) == Run(Restarted(s, n), rest)
  {
    RunStep(s, NextGeneration(Name(n)), Restarted(s, n), rest);
  }

  lemma BeginsAndCommits(s: State, n: nat, rest: seq<Action>)
    requires s.lock.None? && s.books.campaign.active.None? && Startable(s.memory, TxOf(n))
    ensures Run(s, [Begin(TxOf(n))] + ([RecordCommit("c", true)] + rest)) == Run(WithCommit(Begun(s, n), n), rest)
  {
    RunStep(s, Begin(TxOf(n)), Begun(s, n), [RecordCommit("c", true)] + rest);
    RunStep(Begun(s, n), RecordCommit("c", true), WithCommit(Begun(s, n), n), rest);
  }

  lemma Opens(s: State, n: nat, rest: seq<Action>)
    requires Rounds(s, n)
    ensures Run(s, [NextGeneration(Name(n))] + ([Begin(TxOf(n))] + ([RecordCommit("c", true)] + rest)))
         == Run(Opened(s, n), rest)
  {
    Restarts(s, n, [Begin(TxOf(n))] + ([RecordCommit("c", true)] + rest));
    BeginsAndCommits(Restarted(s, n), n, rest);
  }

  // ---- its worker absorbs the commit, and dies before it writes the row ----

  function Look(n: nat): Snapshot {
    Snapshot("c", true, Name(n), None)
  }

  function Absorbing(s: State, n: nat): State {
    After(Seen(Opened(s, n), "c", None, None), n, "c", Look(n), NO_INTENT)
  }

  lemma AbsorbsUnrowed(s: State, n: nat)
    requires Rounds(s, n)
    ensures var t, o := Absorbing(s, n), Opened(s, n);
      && t.files == o.files && t.lock == Some(n) && t.books.tags == [] && t.generation == o.generation
      && t.workers == o.workers[n := Worker(true, Boot(Name(n), "c"), Tagging(Name(n), false))]
      && t.memory.txIds == o.memory.txIds && t.memory.taskIds == o.memory.taskIds
      && t.memory.generations == o.memory.generations
    ensures var t := Absorbing(s, n);
      && |t.memory.closed| == n + 1 && t.memory.closed[..n] == s.memory.closed
      && t.memory.closed[n].tx.outcome.Absorbed? && t.memory.closed[n].tx.taskId == Name(n)
    ensures var campaign := Absorbing(s, n).books.campaign;
      campaign.running && !campaign.stopIntent && campaign.active.None? && campaign.stamp == Name(n)
  {
    var o := Opened(s, n);
    var campaign, boot := o.books.campaign, Boot(Name(n), "c");
    var decision := Reconcile(campaign, boot, Look(n), NO_INTENT);
    assert ReceiptValid(campaign, campaign.active.value);
    ReconcileClosesExactly(campaign, boot, Look(n), NO_INTENT);
    ReconcileWritesCleanly(campaign, boot, Look(n), NO_INTENT);
    ReconcileIsJustified(campaign, boot, Look(n), NO_INTENT);
  }

  function Crashed(s: State, pid: Pid): State
    requires At(s, pid)
  {
    s.(workers := s.workers[pid := s.workers[pid].(alive := false, phase := Finished)], lock := None)
  }

  function RoundTail(pid: Pid, rest: seq<Action>): seq<Action> {
    LockAndWrite(pid, NO_INTENT, [Crash(pid)] + rest)
  }

  function Round(n: nat, rest: seq<Action>): seq<Action> {
    [NextGeneration(Name(n))] + ([Begin(TxOf(n))] + ([RecordCommit("c", true)] +
      UpToLook(n, "c", None, None, RoundTail(n, rest))))
  }

  lemma WritesAndDies(s: State, pid: Pid, snapshot: Snapshot, rest: seq<Action>)
    requires s.lock.None?
    requires var t := After(s, pid, "c", snapshot, NO_INTENT); At(t, pid) && t.lock == Some(pid)
    ensures Run(Booted(s, pid, "c", LockingReconcile(snapshot)), RoundTail(pid, rest))
         == Run(Crashed(After(s, pid, "c", snapshot, NO_INTENT), pid), rest)
  {
    var t := After(s, pid, "c", snapshot, NO_INTENT);
    LocksAndWrites(s, pid, "c", snapshot, NO_INTENT, [Crash(pid)] + rest);
    RunStep(t, Crash(pid), Crashed(t, pid), rest);
  }

  lemma CrashedIsRound(s: State, n: nat)
    requires Rounds(s, n) && At(Absorbing(s, n), n)
    ensures Rounds(Crashed(Absorbing(s, n), n), n + 1)
  {
    AbsorbsUnrowed(s, n);
    var t := Absorbing(s, n);
    forall i | 0 <= i < n ensures !t.memory.closed[i].tx.outcome.Open? {
      assert t.memory.closed[i] == t.memory.closed[..n][i];
    }
  }

  function RoundEnd(s: State, n: nat): State
    requires At(Absorbing(s, n), n)
  {
    Crashed(Absorbing(s, n), n)
  }

  lemma OneRound(s: State, n: nat, rest: seq<Action>)
    requires Rounds(s, n)
    ensures At(Absorbing(s, n), n) && Run(s, Round(n, rest)) == Run(RoundEnd(s, n), rest)
    ensures Rounds(RoundEnd(s, n), n + 1)
  {
    AbsorbsUnrowed(s, n);
    assert n !in s.workers;
    Opens(s, n, UpToLook(n, "c", None, None, RoundTail(n, rest)));
    BootsToLook(Opened(s, n), n, "c", None, None, RoundTail(n, rest));
    WritesAndDies(Seen(Opened(s, n), "c", None, None), n, Look(n), rest);
    CrashedIsRound(s, n);
  }

  // ---- as many as it takes ----

  const UNNAMED_START := EMPTY_STATE.(generation := "", memory := Memory([], {}, {}, {}, {""}))

  /** The rounds `n` up to `last`. */
  function RoundsFrom(n: nat, last: nat): seq<Action>
    requires n <= last
    decreases last - n
  {
    if n == last then [] else Round(n, RoundsFrom(n + 1, last))
  }

  /** Any number of transactions can be resolved and none of them have a row. */
  lemma {:induction false} ManyRounds(s: State, n: nat, last: nat)
    requires Rounds(s, n) && n <= last
    ensures Run(s, RoundsFrom(n, last)).Some? && Rounds(Run(s, RoundsFrom(n, last)).value, last)
    decreases last - n
  {
    if n < last {
      OneRound(s, n, RoundsFrom(n + 1, last));
      ManyRounds(RoundEnd(s, n), n + 1, last);
    }
  }

  lemma RoundsLose(s: State, n: nat)
    requires Rounds(s, n) && n > HISTORY_LIMIT
    ensures Lost(s, 0)
  {
  }

  ghost predicate SomeRunLoses() {
    exists start: State, actions: seq<Action> ::
      Initial(start) && Run(start, actions).Some? && Lost(Run(start, actions).value, 0)
  }

  lemma LosesAfter(n: nat)
    requires n > HISTORY_LIMIT
    ensures SomeRunLoses()
  {
    ManyRounds(UNNAMED_START, 0, n);
    RoundsLose(Run(UNNAMED_START, RoundsFrom(0, n)).value, n);
    assert Initial(UNNAMED_START);
  }

  /** Fifty-one crashes, each between the campaign write and the row: the first row is lost, and
      by LostStaysLost no later step adds it. */
  lemma RowsCanBeLost()
    ensures SomeRunLoses()
  {
    LosesAfter(HISTORY_LIMIT + 1);
  }
}
