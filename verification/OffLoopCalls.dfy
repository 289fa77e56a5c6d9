/** Accounting run in a worker thread for a coroutine that may be cancelled at any await:
    the pre-send reservation and the post-response settlement. */
module OffLoopCalls {
  import opened Options

  /** `Presend` makes a reservation, with or without a release for one that a cancelled caller
      cannot take; `Postresponse` accounts a response already received, and retains it. */
  datatype Kind = Presend(releases: bool) | Postresponse

  predicate Disposes(kind: Kind) {
    kind.Presend? ==> kind.releases
  }

  datatype Worker = Working | Produced(id: nat) | Failed

  /** `Waiting` and `Joining` await the worker, the second after a cancellation; `Cleaning`
      awaits the disposal (release or retention) of what the worker produced. */
  datatype Caller =
    | Waiting
    | Joining
    | Cleaning(id: nat)
    | Returned(id: nat)
    | RaisedFailure
    | RaisedCancelled

  datatype State = State(worker: Worker, caller: Caller, cancelAsked: bool, disposed: seq<nat>)

  const START := State(Working, Waiting, false, [])

  datatype Action = AskCancel | WorkerProduces(id: nat) | WorkerFails | CallerResumes | DisposalEnds(failed: bool)

  predicate CallerDone(s: State) {
    s.caller.Returned? || s.caller.RaisedFailure? || s.caller.RaisedCancelled?
  }

  /** A cancelled caller whose worker has ended. */
  function Settle(kind: Kind, s: State): State {
    match s.worker
    case Produced(id) =>
      if Disposes(kind) then s.(caller := Cleaning(id), disposed := s.disposed + [id])
      else s.(caller := RaisedCancelled)
    case _ => s.(caller := if kind.Presend? then RaisedCancelled else RaisedFailure)
  }

  function Next(kind: Kind, s: State, action: Action): Option<State> {
    match action
    case AskCancel => if CallerDone(s) then None else Some(s.(cancelAsked := true))
    case WorkerProduces(id) => if s.worker.Working? then Some(s.(worker := Produced(id))) else None
    case WorkerFails => if s.worker.Working? then Some(s.(worker := Failed)) else None
    case CallerResumes =>
      if CallerDone(s) then None
      else if s.cancelAsked then
        var s := s.(cancelAsked := false);
        if s.caller.Cleaning? then Some(s)
        else if s.worker.Working? then Some(s.(caller := Joining))
        else Some(Settle(kind, s))
      else if s.caller.Cleaning? || s.worker.Working? then None
      else if s.caller.Joining? then Some(Settle(kind, s))
      else Some(s.(caller := if s.worker.Produced? then Returned(s.worker.id) else RaisedFailure))
    case DisposalEnds(failed) =>
      if s.caller.Cleaning? && !s.cancelAsked then
        Some(s.(caller := if failed && kind.Presend? then RaisedFailure else RaisedCancelled))
      else None
  }

  function Run(kind: Kind, actions: seq<Action>): Option<State> {
    if actions == [] then Some(START)
    else match Run(kind, actions[..|actions| - 1])
      case None => None
      case Some(s) => Next(kind, s, actions[|actions| - 1])
  }

  /** What a caller that raises has disposed of. */
  function Owed(kind: Kind, worker: Worker): seq<nat> {
    if worker.Produced? && Disposes(kind) then [worker.id] else []
  }

  ghost predicate Inv(kind: Kind, s: State) {
    && (CallerDone(s) || s.caller.Cleaning? ==> !s.worker.Working?)
    && match s.caller
       case Cleaning(id) => s.worker == Produced(id) && s.disposed == [id] && Disposes(kind)
       case Returned(id) => s.worker == Produced(id) && s.disposed == []
       case RaisedFailure => s.disposed == Owed(kind, s.worker)
       case RaisedCancelled => s.disposed == Owed(kind, s.worker)
       case _ => s.disposed == []
  }

  lemma {:induction false} RunKeepsInv(kind: Kind, actions: seq<Action>)
    requires Run(kind, actions).Some?
    ensures Inv(kind, Run(kind, actions).value)
  {
    if actions != [] {
      RunKeepsInv(kind, actions[..|actions| - 1]);
    }
  }

  /** However many cancellations arrive, and whenever: a caller leaves only after its worker
      ended, and what the worker produced was either returned or handed to the disposal once,
      also when the reservation committed just as the cancellation came. Without a disposal it
      is left as it was made, and the caller has only the cancellation. */
  lemma ProducedIsReturnedOrDisposedOnce(kind: Kind, actions: seq<Action>)
    requires Run(kind, actions).Some? && CallerDone(Run(kind, actions).value)
    ensures var s := Run(kind, actions).value;
      match s.worker
      case Working => false
      case Failed => s.disposed == [] && !s.caller.Returned?
      case Produced(id) =>
        if s.caller.Returned? then s.caller.id == id && s.disposed == []
        else s.disposed == (if Disposes(kind) then [id] else [])
  {
    RunKeepsInv(kind, actions);
  }

  // ---- which end a run brings ----

  ghost predicate Calm(s: State) {
    !s.cancelAsked && s.disposed == [] && !s.caller.Joining? && !s.caller.Cleaning? && !s.caller.RaisedCancelled?
  }

  lemma {:induction false} UnaskedIsCalm(kind: Kind, actions: seq<Action>)
    requires Run(kind, actions).Some? && AskCancel !in actions
    ensures Calm(Run(kind, actions).value)
  {
    if actions != [] {
      assert actions[|actions| - 1] in actions;
      assert forall a :: a in actions[..|actions| - 1] ==> a in actions;
      UnaskedIsCalm(kind, actions[..|actions| - 1]);
    }
  }

  /** No cancellation asked for: the caller returns what its worker produced, or raises the
      worker's failure, and nothing is disposed of. */
  lemma UncancelledReturns(kind: Kind, actions: seq<Action>)
    requires Run(kind, actions).Some? && AskCancel !in actions && CallerDone(Run(kind, actions).value)
    ensures var s := Run(kind, actions).value;
      && s.disposed == []
      && match s.worker
         case Working => false
         case Produced(id) => s.caller == Returned(id)
         case Failed => s.caller == RaisedFailure
  {
    RunKeepsInv(kind, actions);
    UnaskedIsCalm(kind, actions);
    FailureIsFailure(kind, actions);
  }

  lemma {:induction false} FailureIsFailure(kind: Kind, actions: seq<Action>)
    requires Run(kind, actions).Some? && AskCancel !in actions
    ensures Run(kind, actions).value.caller.RaisedFailure? ==> Run(kind, actions).value.worker.Failed?
  {
    if actions != [] {
      assert actions[|actions| - 1] in actions;
      assert forall a :: a in actions[..|actions| - 1] ==> a in actions;
      FailureIsFailure(kind, actions[..|actions| - 1]);
      UnaskedIsCalm(kind, actions[..|actions| - 1]);
      RunKeepsInv(kind, actions[..|actions| - 1]);
    }
  }

  /** A cancellation that reaches a caller is not swallowed: it never returns after that. */
  predicate Noticed(caller: Caller) {
    caller.Joining? || caller.Cleaning? || caller.RaisedCancelled? || caller.RaisedFailure?
  }

  lemma CancellationIsNoticed(kind: Kind, s: State, action: Action)
    requires Next(kind, s, action).Some?
    requires Noticed(s.caller) || (s.cancelAsked && action.CallerResumes?)
    ensures Noticed(Next(kind, s, action).value.caller)
  {
  }
}
