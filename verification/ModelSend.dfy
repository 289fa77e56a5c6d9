/** The handover of one paid answer between the thread that sends and the caller that waits.

    Every step below is one that cannot be divided: the body of a locked section, the end of
    the provider call, one poll. Steps of the two sides interleave in any order. */
module ModelSend {
  import opened Options

  /** What the provider call ended with. */
  datatype Outcome = Answer(id: nat) | Failure(id: nat)

  datatype Handover = Waiting | Taken | Abandoned

  /** Where the sender is. `Ended`: the call returned, the handover not yet looked at.
      `Keeps`: the receiver had left. `Handed`: about to complete the future. */
  datatype Sender =
    | Unsubmitted
    | Sending
    | Ended(outcome: Outcome)
    | Keeps(outcome: Outcome)
    | Handed(outcome: Outcome)
    | Done(outcome: Outcome)

  /** Where the receiver is. `SawPause`: its own task was seen paused, the lock not yet taken. */
  datatype Receiver =
    | Submitting
    | Polling
    | SawPause
    | Received(outcome: Outcome)
    | Left
    | NeverSent

  /** One late settlement: whether the answer's accounting and its retention went through,
      and whether the transport's owner was told. */
  datatype Settlement = Settlement(outcome: Outcome, accounted: bool, retained: bool, ownerTold: bool)

  datatype State = State(handover: Handover, sender: Sender, receiver: Receiver, settlements: seq<Settlement>)

  const START := State(Waiting, Unsubmitted, Submitting, [])

  datatype Action =
    | Submit
    | SubmitRefused
    | ProviderEnds(outcome: Outcome)
    | SenderLooks
    | SettleLate(accountingFails: bool, retentionFails: bool)
    | Complete
    | PollFindsDone
    | PollSeesPause
    | PollSeesNothing
    | ReceiverLooks

  /** The sender's locked section: it keeps the outcome when the receiver has left. */
  function SenderLocked(s: State, outcome: Outcome): State {
    if s.handover.Abandoned? then s.(sender := Keeps(outcome))
    else s.(handover := Taken, sender := Handed(outcome))
  }

  /** The receiver's locked section: it leaves only while nothing was handed over. */
  function ReceiverLocked(s: State): State {
    if !s.handover.Waiting? || s.sender.Done? then s.(receiver := Polling)
    else s.(handover := Abandoned, receiver := Left)
  }

  /** Accounting comes first; an answer is retained only once accounted; the owner of the
      transport is told whatever happened before. */
  function Settle(outcome: Outcome, accountingFails: bool, retentionFails: bool): Settlement {
    var accounted := !accountingFails;
    Settlement(outcome, accounted, accounted && outcome.Answer? && !retentionFails, true)
  }

  /** The state after an action, or None when it is not enabled. */
  function Next(s: State, action: Action): Option<State> {
    match action
    case Submit =>
      if s.receiver.Submitting? then Some(s.(sender := Sending, receiver := Polling)) else None
    case SubmitRefused =>
      if s.receiver.Submitting? then Some(s.(receiver := NeverSent)) else None
    case ProviderEnds(outcome) =>
      if s.sender.Sending? then Some(s.(sender := Ended(outcome))) else None
    case SenderLooks =>
      if s.sender.Ended? then Some(SenderLocked(s, s.sender.outcome)) else None
    case SettleLate(accountingFails, retentionFails) =>
      if s.sender.Keeps? then
        Some(s.(sender := Handed(s.sender.outcome),
                settlements := s.settlements + [Settle(s.sender.outcome, accountingFails, retentionFails)]))
      else None
    case Complete =>
      if s.sender.Handed? then Some(s.(sender := Done(s.sender.outcome))) else None
    case PollFindsDone =>
      if s.receiver.Polling? && s.sender.Done? then Some(s.(receiver := Received(s.sender.outcome))) else None
    case PollSeesPause =>
      if s.receiver.Polling? && !s.sender.Done? then Some(s.(receiver := SawPause)) else None
    case PollSeesNothing =>
      if s.receiver.Polling? && !s.sender.Done? then Some(s) else None
    case ReceiverLooks =>
      if s.receiver.SawPause? then Some(ReceiverLocked(s)) else None
  }

  /** The state an interleaving leads to from the start, or None when it is not a run. */
  function Run(actions: seq<Action>): Option<State> {
    if actions == [] then Some(START)
    else match Run(actions[..|actions| - 1])
      case None => None
      case Some(s) => Next(s, actions[|actions| - 1])
  }

  // ---- what every reachable state satisfies ----

  ghost predicate Inv(s: State) {
    && (s.handover.Abandoned? <==> s.receiver.Left?)
    && (s.receiver.Submitting? || s.receiver.NeverSent? <==> s.sender.Unsubmitted?)
    && (s.handover.Taken? ==> s.sender.Handed? || s.sender.Done?)
    && (s.handover.Waiting? ==> s.sender.Unsubmitted? || s.sender.Sending? || s.sender.Ended?)
    && (s.sender.Keeps? ==> s.handover.Abandoned?)
    && (s.receiver.Received? ==> s.sender.Done? && s.receiver.outcome == s.sender.outcome)
    && (if s.handover.Abandoned? && (s.sender.Handed? || s.sender.Done?)
        then |s.settlements| == 1 && s.settlements[0].outcome == s.sender.outcome && s.settlements[0].ownerTold
        else s.settlements == [])
  }

  lemma StepKeepsInv(s: State, action: Action)
    requires Inv(s) && Next(s, action).Some?
    ensures Inv(Next(s, action).value)
  {
  }

  lemma {:induction false} RunKeepsInv(actions: seq<Action>)
    requires Run(actions).Some?
    ensures Inv(Run(actions).value)
  {
    if actions != [] {
      RunKeepsInv(actions[..|actions| - 1]);
      StepKeepsInv(Run(actions[..|actions| - 1]).value, actions[|actions| - 1]);
    }
  }

  predicate Finished(s: State) {
    (s.sender.Done? || s.sender.Unsubmitted?) && (s.receiver.Received? || s.receiver.Left? || s.receiver.NeverSent?)
  }

  /** In every interleaving, once both sides are finished and a request was sent, exactly one
      of two things happened: the receiver got the sender's own outcome and nothing was settled
      late, or it left and the sender settled that outcome late exactly once. */
  lemma ExactlyOneDisposition(actions: seq<Action>)
    requires Run(actions).Some? && Finished(Run(actions).value)
    ensures var s := Run(actions).value;
      match s.sender
      case Done(outcome) =>
        || (s.receiver == Received(outcome) && s.settlements == [])
        || (s.receiver == Left && |s.settlements| == 1 && s.settlements[0].outcome == outcome &&
             s.settlements[0].ownerTold)
      case _ => s.receiver == NeverSent && s.settlements == []
  {
    RunKeepsInv(actions);
  }

  // ---- what each side does ----

  /** The sender keeps its outcome exactly when the receiver has left by then, and the receiver
      leaves exactly when the sender has not handed over by then. */
  lemma TheLockDecides(s: State, action: Action)
    requires Inv(s) && Next(s, action).Some?
    ensures action.SenderLooks? ==> (Next(s, action).value.sender.Keeps? <==> s.receiver.Left?)
    ensures action.ReceiverLooks? ==>
      (Next(s, action).value.receiver.Left? <==> s.sender.Unsubmitted? || s.sender.Sending? || s.sender.Ended?)
    ensures s.sender.Done? && action.PollFindsDone? ==> Next(s, action).value.receiver == Received(s.sender.outcome)
  {
  }

  /** What the settlement of `outcome` leaves, when its two writes go through or fail. */
  ghost predicate SettledAs(settlement: Settlement, accountingFails: bool, retentionFails: bool) {
    && (settlement.accounted <==> !accountingFails)
    && (settlement.retained <==> settlement.outcome.Answer? && !accountingFails && !retentionFails)
    && settlement.ownerTold
  }

  ghost predicate MadeBy(actions: seq<Action>, settlement: Settlement) {
    exists a, r :: SettleLate(a, r) in actions && SettledAs(settlement, a, r)
  }

  /** Every settlement of a run was made by one of its late settlements, and is what its failures
      let it be. */
  lemma {:induction false} LateSettlementIsWhole(actions: seq<Action>)
    requires Run(actions).Some?
    ensures forall settlement :: settlement in Run(actions).value.settlements ==> MadeBy(actions, settlement)
  {
    if actions != [] {
      var earlier, last := actions[..|actions| - 1], actions[|actions| - 1];
      assert actions == earlier + [last];
      LateSettlementIsWhole(earlier);
      forall settlement | settlement in Run(actions).value.settlements ensures MadeBy(actions, settlement) {
        if settlement in Run(earlier).value.settlements {
          var a, r :| SettleLate(a, r) in earlier && SettledAs(settlement, a, r);
          assert SettleLate(a, r) in actions;
        } else {
          assert SettleLate(last.accountingFails, last.retentionFails) in actions;
        }
      }
    }
  }

  /** A run has a settlement once it has settled late. */
  lemma {:induction false} SettlesOnceLate(actions: seq<Action>, a: bool, r: bool)
    requires Run(actions).Some? && SettleLate(a, r) in actions
    ensures Run(actions).value.settlements != []
  {
    var earlier, last := actions[..|actions| - 1], actions[|actions| - 1];
    assert actions == earlier + [last];
    if SettleLate(a, r) in earlier { SettlesOnceLate(earlier, a, r); }
  }

  /** With a run's one late settlement: accounted exactly unless the accounting failed, retained
      exactly when it is an answer and neither write failed. */
  lemma AbandonedAnswerIsKept(actions: seq<Action>, a: bool, r: bool)
    requires Run(actions).Some? && SettleLate(a, r) in actions
    ensures var s := Run(actions).value;
      && |s.settlements| == 1 && SettledAs(s.settlements[0], a, r)
      && (s.sender.Handed? || s.sender.Done?) && s.settlements[0].outcome == s.sender.outcome
  {
    RunKeepsInv(actions);
    SettlesOnceLate(actions, a, r);
    LateSettlementIsWhole(actions);
    assert MadeBy(actions, Run(actions).value.settlements[0]);
    var b, q :| SettleLate(b, q) in actions && SettledAs(Run(actions).value.settlements[0], b, q);
    OneLateSettlement(actions, a, r, b, q);
  }

  /** A run settles late at most once. */
  lemma {:induction false} OneLateSettlement(actions: seq<Action>, a: bool, r: bool, b: bool, q: bool)
    requires Run(actions).Some? && SettleLate(a, r) in actions && SettleLate(b, q) in actions
    ensures a == b && r == q
  {
    var earlier, last := actions[..|actions| - 1], actions[|actions| - 1];
    assert actions == earlier + [last];
    RunKeepsInv(earlier);
    if SettleLate(a, r) in earlier { SettlesOnceLate(earlier, a, r); }
    if SettleLate(b, q) in earlier { SettlesOnceLate(earlier, b, q); }
    if SettleLate(a, r) in earlier && SettleLate(b, q) in earlier { OneLateSettlement(earlier, a, r, b, q); }
  }

  /** A receiver that left never returns an answer afterwards, and a settlement never comes undone. */
  lemma LeavingIsFinal(s: State, action: Action)
    requires s.receiver.Left? && Next(s, action).Some?
    ensures Next(s, action).value.receiver == Left
    ensures s.settlements <= Next(s, action).value.settlements
  {
  }

  /** Nobody waits for ever on the other: in every reachable unfinished state some step other
      than an idle poll is open, or only the provider is still out. */
  lemma SomeoneCanMove(actions: seq<Action>) returns (action: Action)
    requires Run(actions).Some? && !Finished(Run(actions).value)
    ensures Next(Run(actions).value, action).Some?
    ensures action != PollSeesNothing && (action.ProviderEnds? ==> Run(actions).value.sender.Sending?)
  {
    RunKeepsInv(actions);
    var s := Run(actions).value;
    match s.sender
    case Unsubmitted => action := Submit;
    case Sending => action := ProviderEnds(Answer(0));
    case Ended(_) => action := SenderLooks;
    case Keeps(_) => action := SettleLate(false, false);
    case Handed(_) => action := Complete;
    case Done(_) => action := if s.receiver.Polling? then PollFindsDone else ReceiverLooks;
  }
}
