/** The same handover on one event loop, under any number of cancellations.

    A step is what runs between two awaits; only awaits are places where another step can
    come between. A cancellation asked for is delivered at the receiver's next resumption. */
module ModelSendAsync {
  import opened Options

  /** How the awaited provider call ended. `cancels` marks an error that is itself a cancellation. */
  datatype Outcome = Response(id: nat) | Error(cancels: bool)

  datatype Sender =
    | Scheduled(cancelled: bool)
    | Completing(cancelled: bool)
    | Retaining(response: nat)
    | TellingOwner
    | Ended
    | NeverEntered

  datatype Receiver =
    | Polling
    | Awaiting
    | JoiningSender
    | JoiningRetention(response: nat)
    | Returned(response: nat)
    | RaisedError
    | RaisedAbandoned
    | RaisedCancelled(attached: Option<nat>)

  datatype State = State(
    sender: Sender,
    receiver: Receiver,
    cancelAsked: bool,
    outcome: Option<Outcome>,
    abandoned: bool,
    taken: bool,
    retainedOnAbandon: seq<nat>,
    retainedOnCancel: seq<nat>,
    ownerTold: nat)

  /** After submission: a receiver that owner Pause may interrupt polls, another one awaits. */
  function Start(abandonable: bool): State {
    State(Scheduled(false), if abandonable then Polling else Awaiting, false, None, false, false, [], [], 0)
  }

  datatype Action =
    | AskCancel
    | SenderEnters
    | ProviderEnds(outcome: Outcome)
    | RetentionOnAbandonEnds
    | OwnerTold
    | PollTimesOut(paused: bool)
    | ReceiverResumes
    | RetentionOnCancelEnds

  predicate SenderDone(s: State) {
    s.sender.Ended? || s.sender.NeverEntered?
  }

  predicate ReceiverDone(s: State) {
    s.receiver.Returned? || s.receiver.RaisedError? || s.receiver.RaisedAbandoned? || s.receiver.RaisedCancelled?
  }

  /** No await separates the end of the call from its handover. */
  function HandOver(s: State, outcome: Outcome): State {
    var ended := s.(outcome := Some(outcome));
    if s.abandoned then
      match outcome
      case Response(id) => ended.(sender := Retaining(id), retainedOnAbandon := s.retainedOnAbandon + [id])
      case Error(_) => ended.(sender := TellingOwner)
    else ended.(taken := true, sender := Ended)
  }

  /** What the receiver does with a finished sender once it was cancelled: a response is
      attached to the cancellation and its retention begun, anything else is only raised. */
  function SettleCancelled(s: State): State {
    match s.outcome
    case Some(Response(id)) =>
      s.(receiver := JoiningRetention(id), retainedOnCancel := s.retainedOnCancel + [id])
    case _ => s.(receiver := RaisedCancelled(None))
  }

  /** Cancelling the sender's task: it is noted by a sender that has not yet finished the call. */
  function CancelSender(sender: Sender): Sender {
    match sender
    case Scheduled(_) => Scheduled(true)
    case Completing(_) => Completing(true)
    case _ => sender
  }

  /** A cancellation reaching the receiver at the await it is in. */
  function Deliver(s: State): State {
    var s := s.(cancelAsked := false);
    match s.receiver
    case JoiningRetention(_) => s
    case _ =>
      var cancelled := if s.receiver.JoiningSender? then s else s.(sender := CancelSender(s.sender));
      if SenderDone(cancelled) then SettleCancelled(cancelled) else cancelled.(receiver := JoiningSender)
  }

  /** The finished sender's outcome reaching a receiver that was not cancelled. */
  function TakeOutcome(s: State): State {
    match s.outcome
    case Some(Response(id)) => s.(receiver := Returned(id))
    case Some(Error(cancels)) => if cancels then SettleCancelled(s) else s.(receiver := RaisedError)
    case None => s.(receiver := RaisedCancelled(None))
  }

  function Next(s: State, action: Action): Option<State> {
    match action
    case AskCancel =>
      if ReceiverDone(s) then None else Some(s.(cancelAsked := true))
    case SenderEnters =>
      if !s.sender.Scheduled? then None
      else if s.sender.cancelled then Some(s.(sender := NeverEntered))
      else Some(s.(sender := Completing(false)))
    case ProviderEnds(outcome) =>
      if s.sender.Completing? then Some(HandOver(s, outcome)) else None
    case RetentionOnAbandonEnds =>
      if s.sender.Retaining? then Some(s.(sender := TellingOwner)) else None
    case OwnerTold =>
      if s.sender.TellingOwner? then Some(s.(sender := Ended, ownerTold := s.ownerTold + 1)) else None
    case PollTimesOut(paused) =>
      if !s.receiver.Polling? || s.cancelAsked || SenderDone(s) then None
      else if !s.taken && paused then Some(s.(abandoned := true, receiver := RaisedAbandoned))
      else Some(s)
    case ReceiverResumes =>
      if ReceiverDone(s) then None
      else if s.cancelAsked then Some(Deliver(s))
      else if s.receiver.JoiningRetention? || !SenderDone(s) then None
      else if s.receiver.JoiningSender? then Some(SettleCancelled(s))
      else Some(TakeOutcome(s))
    case RetentionOnCancelEnds =>
      if s.receiver.JoiningRetention? && !s.cancelAsked then
        Some(s.(receiver := RaisedCancelled(Some(s.receiver.response))))
      else None
  }

  function Run(abandonable: bool, actions: seq<Action>): Option<State> {
    if actions == [] then Some(Start(abandonable))
    else match Run(abandonable, actions[..|actions| - 1])
      case None => None
      case Some(s) => Next(s, actions[|actions| - 1])
  }

  // ---- invariants ----

  /** What the receiver has done so far with a response it took part in. */
  ghost predicate CancelSide(s: State) {
    match s.receiver
    case JoiningRetention(id) => s.outcome == Some(Response(id)) && s.retainedOnCancel == [id]
    case RaisedCancelled(Some(id)) => s.outcome == Some(Response(id)) && s.retainedOnCancel == [id]
    case RaisedCancelled(None) => s.retainedOnCancel == [] && (s.outcome.None? || s.outcome.value.Error?)
    case Returned(id) => s.retainedOnCancel == [] && s.outcome == Some(Response(id))
    case RaisedError => s.retainedOnCancel == [] && s.outcome == Some(Error(false))
    case _ => s.retainedOnCancel == []
  }

  /** What the sender has done so far with a response its receiver left. */
  ghost predicate AbandonSide(s: State) {
    match s.sender
    case Retaining(id) =>
      s.abandoned && s.outcome == Some(Response(id)) && s.retainedOnAbandon == [id] && s.ownerTold == 0
    case TellingOwner => s.abandoned && Retained(s) && s.ownerTold == 0
    case Ended => if s.abandoned then Retained(s) && s.ownerTold == 1 else s.retainedOnAbandon == [] && s.ownerTold == 0
    case _ => s.retainedOnAbandon == [] && s.ownerTold == 0
  }

  ghost predicate Retained(s: State) {
    match s.outcome
    case Some(Response(id)) => s.retainedOnAbandon == [id]
    case Some(Error(_)) => s.retainedOnAbandon == []
    case None => false
  }

  ghost predicate Inv(s: State) {
    && (s.abandoned <==> s.receiver.RaisedAbandoned?)
    && (s.taken <==> s.sender.Ended? && !s.abandoned)
    && (s.outcome.None? <==> s.sender.Scheduled? || s.sender.Completing? || s.sender.NeverEntered?)
    && (s.sender.NeverEntered? || (s.sender.Scheduled? && s.sender.cancelled) ||
         (s.sender.Completing? && s.sender.cancelled) ==>
          s.receiver.JoiningSender? || s.receiver.RaisedCancelled?)
    && (s.receiver.JoiningRetention? || s.receiver.Returned? || s.receiver.RaisedError? ||
         s.receiver.RaisedCancelled? ==>
          SenderDone(s))
    && CancelSide(s) && AbandonSide(s)
  }

  lemma StepKeepsInv(s: State, action: Action)
    requires Inv(s) && Next(s, action).Some?
    ensures Inv(Next(s, action).value)
  {
  }

  lemma {:induction false} RunKeepsInv(abandonable: bool, actions: seq<Action>)
    requires Run(abandonable, actions).Some?
    ensures Inv(Run(abandonable, actions).value)
  {
    if actions != [] {
      RunKeepsInv(abandonable, actions[..|actions| - 1]);
      StepKeepsInv(Run(abandonable, actions[..|actions| - 1]).value, actions[|actions| - 1]);
    }
  }

  /** In every schedule of event-loop steps, pause polls and cancellations, a response the
      provider call produced met exactly one end: it was returned; or retained by the sender
      its receiver had left; or attached to the raised cancellation and retained. Without a
      response nothing is returned or retained. */
  lemma EveryResponseMeetsOneEnd(abandonable: bool, actions: seq<Action>)
    requires Run(abandonable, actions).Some?
    requires var s := Run(abandonable, actions).value; SenderDone(s) && ReceiverDone(s)
    ensures var s := Run(abandonable, actions).value;
      match s.outcome
      case Some(Response(id)) =>
        || (s.receiver == Returned(id) && s.retainedOnAbandon == [] && s.retainedOnCancel == [])
        || (s.receiver == RaisedAbandoned && s.retainedOnAbandon == [id] && s.retainedOnCancel == [] &&
             s.ownerTold == 1)
        || (s.receiver == RaisedCancelled(Some(id)) && s.retainedOnAbandon == [] && s.retainedOnCancel == [id])
      case _ => !s.receiver.Returned? && s.retainedOnAbandon == [] && s.retainedOnCancel == []
  {
    RunKeepsInv(abandonable, actions);
  }

  // ---- which end a schedule brings ----

  ghost predicate Asked(actions: seq<Action>) {
    AskCancel in actions
  }

  /** A receiver that has taken notice of a cancellation. */
  predicate OnCancelWay(receiver: Receiver) {
    receiver.JoiningSender? || receiver.JoiningRetention? || receiver.RaisedCancelled?
  }

  ghost predicate Uncancelled(s: State) {
    && !s.cancelAsked && !s.sender.NeverEntered?
    && (s.sender.Scheduled? || s.sender.Completing? ==> !s.sender.cancelled)
    && (OnCancelWay(s.receiver) ==> s.outcome == Some(Error(true)) && s.receiver == RaisedCancelled(None))
  }

  lemma UncancelledStep(s: State, action: Action)
    requires Inv(s) && Uncancelled(s) && !action.AskCancel? && Next(s, action).Some?
    ensures Uncancelled(Next(s, action).value)
  {
  }

  lemma {:induction false} UnaskedIsUncancelled(abandonable: bool, actions: seq<Action>)
    requires Run(abandonable, actions).Some? && !Asked(actions)
    ensures Uncancelled(Run(abandonable, actions).value)
  {
    if actions != [] {
      var earlier, last := actions[..|actions| - 1], actions[|actions| - 1];
      assert last in actions && forall a :: a in earlier ==> a in actions;
      RunKeepsInv(abandonable, earlier);
      UnaskedIsUncancelled(abandonable, earlier);
      UncancelledStep(Run(abandonable, earlier).value, last);
    }
  }

  /** No cancellation asked for: a receiver that did not leave on a pause returned the response,
      or raised the provider's own error, which is a cancellation only when that error is one. */
  lemma UncancelledGetsItsOutcome(abandonable: bool, actions: seq<Action>)
    requires Run(abandonable, actions).Some? && !Asked(actions)
    requires var s := Run(abandonable, actions).value; ReceiverDone(s) && !s.receiver.RaisedAbandoned?
    ensures var s := Run(abandonable, actions).value;
      match s.outcome
      case Some(Response(id)) => s.receiver == Returned(id) && s.retainedOnCancel == []
      case Some(Error(cancels)) => s.receiver == if cancels then RaisedCancelled(None) else RaisedError
      case None => false
  {
    RunKeepsInv(abandonable, actions);
    UnaskedIsUncancelled(abandonable, actions);
  }

  /** A cancellation that reaches a receiver is never swallowed: from then on it is on its way to
      raise it, with the response attached if there is one, and never returns. */
  lemma CancellationIsDelivered(s: State, action: Action)
    requires Inv(s) && Next(s, action).Some?
    requires OnCancelWay(s.receiver) || (s.cancelAsked && action.ReceiverResumes?)
    ensures OnCancelWay(Next(s, action).value.receiver)
    ensures SenderDone(s) && action.ReceiverResumes? && !s.receiver.JoiningRetention? ==>
      Next(s, action).value.receiver ==
        (if s.outcome.Some? && s.outcome.value.Response? then JoiningRetention(s.outcome.value.id)
         else RaisedCancelled(None))
  {
  }

  /** The first notice also cancels a sender that has not ended its call: one that has not begun
      never enters the provider call, one that has is told; joined, it is told nothing more. */
  lemma CancellationReachesTheSender(s: State)
    requires Inv(s) && s.cancelAsked && !ReceiverDone(s)
    ensures var t := Next(s, ReceiverResumes).value;
      && Next(s, ReceiverResumes).Some? && !t.cancelAsked
      && (s.receiver.Polling? || s.receiver.Awaiting? ==>
            && (s.sender.Scheduled? ==> t.sender == Scheduled(true))
            && (s.sender.Completing? ==> t.sender == Completing(true)))
      && (s.receiver.JoiningSender? || s.receiver.JoiningRetention? || SenderDone(s) ==> t.sender == s.sender)
    ensures s.sender == Scheduled(true) ==>
      Next(s, SenderEnters).Some? && Next(s, SenderEnters).value.sender.NeverEntered?
  {
  }

  /** A receiver leaves its sender exactly when a poll sees the pause before the call has ended;
      one that may not leave never does. */
  lemma LeavesOnlyOnPause(s: State, action: Action)
    requires Inv(s) && Next(s, action).Some?
    ensures Next(s, action).value.receiver.RaisedAbandoned? <==>
      s.receiver.RaisedAbandoned? || (action == PollTimesOut(true))
  {
  }

  lemma {:induction false} UnabandonableStays(actions: seq<Action>)
    requires Run(false, actions).Some?
    ensures !Run(false, actions).value.receiver.RaisedAbandoned? && !Run(false, actions).value.receiver.Polling?
  {
    if actions != [] { UnabandonableStays(actions[..|actions| - 1]); }
  }

  /** A cancelled receiver never leaves a sender behind: when it raises, the sender is done. */
  lemma CancellationJoinsTheSender(abandonable: bool, actions: seq<Action>)
    requires Run(abandonable, actions).Some? && Run(abandonable, actions).value.receiver.RaisedCancelled?
    ensures SenderDone(Run(abandonable, actions).value)
    ensures Run(abandonable, actions).value.sender.NeverEntered? ==>
      Run(abandonable, actions).value.receiver == RaisedCancelled(None)
  {
    RunKeepsInv(abandonable, actions);
  }

  /** No reachable state is stuck: until both sides are done some step is open. */
  lemma SomeoneCanMove(abandonable: bool, actions: seq<Action>) returns (action: Action)
    requires Run(abandonable, actions).Some?
    requires var s := Run(abandonable, actions).value; !(SenderDone(s) && ReceiverDone(s))
    ensures Next(Run(abandonable, actions).value, action).Some?
    ensures action != AskCancel && !action.PollTimesOut?
  {
    RunKeepsInv(abandonable, actions);
    var s := Run(abandonable, actions).value;
    if !SenderDone(s) {
      action := match s.sender
        case Scheduled(_) => SenderEnters
        case Completing(_) => ProviderEnds(Error(true))
        case Retaining(_) => RetentionOnAbandonEnds
        case _ => OwnerTold;
    } else {
      action := if s.receiver.JoiningRetention? && !s.cancelAsked then RetentionOnCancelEnds else ReceiverResumes;
    }
  }
}
