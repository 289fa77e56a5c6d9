/** The wait of one unsent request for storage and for a queue publication. Seconds are
    exact; the clock never goes back. */
module PresendBudget {
  import opened Options

  const PUBLICATION_WAIT := 30.0
  const PUBLICATION_POLL := 0.05
  const ACQUISITION_SLICE := 0.25
  const LOCK_TIMEOUT := 45.0

  /** Why one preparation did not go through. `Final` is every error that is not a confirmed,
      rolled-back contention, and every error during cleanup. */
  datatype Refusal = Pending(probe: real) | Contention | Final

  datatype Verdict =
    | Sleep(seconds: real)
    | Raised
    | Interrupted
    | Unconfirmed

  /** One failed attempt: its error, whether a control then stops the wait, the time since the
      episode began, and how long the sleep really took. */
  datatype Attempt = Attempt(refusal: Refusal, controlStops: bool, elapsed: real, slept: real)

  function Min(a: real, b: real): real {
    if a <= b then a else b
  }

  function Max(a: real, b: real): real {
    if a >= b then a else b
  }

  class PresendWait {
    const owned: bool
    const interactiveBound: Option<real>
    var publicationWaited: real
    var publicationStarted: bool
    var entered: bool

    constructor (owned: bool, interactiveBound: Option<real>)
      ensures publicationWaited == 0.0 && !publicationStarted && !entered
    {
      this.owned, this.interactiveBound := owned, interactiveBound;
      publicationWaited, publicationStarted, entered := 0.0, false, false;
    }

    /** How long to wait before the next attempt, or why not to. Nothing is charged here. */
    method Delay(attempt: Attempt) returns (verdict: Verdict)
      modifies this
      ensures publicationWaited == old(publicationWaited)
      ensures publicationStarted == (old(publicationStarted) || attempt.refusal.Pending?)
      ensures verdict.Sleep? <==>
        && !attempt.refusal.Final? && !attempt.controlStops
        && (interactiveBound.Some? ==> attempt.elapsed < interactiveBound.value)
        && (attempt.refusal.Pending? ==> publicationWaited < PUBLICATION_WAIT)
        && (owned || attempt.elapsed < LOCK_TIMEOUT)
      ensures attempt.refusal.Final? ==> verdict == Raised
      ensures verdict == Interrupted <==> (!attempt.refusal.Final? &&
        (attempt.controlStops || (interactiveBound.Some? && attempt.elapsed >= interactiveBound.value)))
      ensures entered == (old(entered) || verdict.Sleep?)
      ensures verdict.Sleep? ==> entered && !attempt.controlStops
      ensures verdict.Sleep? && attempt.refusal.Pending? ==>
        publicationWaited < PUBLICATION_WAIT &&
          verdict.seconds == Min(PUBLICATION_POLL, PUBLICATION_WAIT - publicationWaited)
      ensures verdict.Sleep? && !attempt.refusal.Pending? ==> verdict.seconds == ACQUISITION_SLICE
      ensures attempt.refusal.Pending? && !attempt.controlStops && publicationWaited >= PUBLICATION_WAIT ==>
        verdict == Unconfirmed || verdict == Interrupted
    {
      if attempt.refusal.Final? {
        return Raised;
      }
      if attempt.refusal.Pending? {
        publicationStarted := true;
      }
      if attempt.controlStops {
        return Interrupted;
      }
      if interactiveBound.Some? && attempt.elapsed >= interactiveBound.value {
        return Interrupted;
      }
      var remaining := PUBLICATION_WAIT - publicationWaited;
      if attempt.refusal.Pending? && remaining <= 0.0 {
        return Unconfirmed;
      }
      if !owned && attempt.elapsed >= LOCK_TIMEOUT {
        return Raised;
      }
      entered := true;
      verdict := Sleep(if attempt.refusal.Pending? then Min(PUBLICATION_POLL, remaining) else ACQUISITION_SLICE);
    }

    /** One wait, charged to the publication budget only when a publication was pending: its
        probe, and the longer of the planned and the real sleep. */
    method Wait(attempt: Attempt) returns (verdict: Verdict)
      requires attempt.refusal.Pending? ==> attempt.refusal.probe >= 0.0
      modifies this
      ensures verdict.Sleep? <==> GoesOn(this, old(publicationWaited), attempt)
      ensures verdict.Sleep? && attempt.refusal.Pending? ==>
        verdict.seconds == Min(PUBLICATION_POLL, PUBLICATION_WAIT - (old(publicationWaited) + attempt.refusal.probe))
      ensures verdict.Sleep? && !attempt.refusal.Pending? ==> verdict.seconds == ACQUISITION_SLICE
      ensures !attempt.refusal.Pending? ==> publicationWaited == old(publicationWaited)
      ensures attempt.refusal.Pending? && verdict.Sleep? ==>
        && old(publicationWaited) + attempt.refusal.probe < PUBLICATION_WAIT
        && publicationWaited == old(publicationWaited) + attempt.refusal.probe + Max(verdict.seconds, attempt.slept)
        && publicationWaited >= Min(PUBLICATION_WAIT, old(publicationWaited) + PUBLICATION_POLL)
      ensures publicationWaited >= old(publicationWaited)
      ensures attempt.refusal.Final? ==> !verdict.Sleep?
    {
      if attempt.refusal.Pending? {
        publicationWaited := publicationWaited + attempt.refusal.probe;
      }
      verdict := Delay(attempt);
      if attempt.refusal.Pending? && verdict.Sleep? {
        publicationWaited := publicationWaited + Max(verdict.seconds, attempt.slept);
      }
    }
  }

  /** How many publication waits one episode can hold: the budget over the poll, rounded up. */
  const MOST_PUBLICATION_WAITS: nat := 600

  lemma MostIsBudgetOverPoll()
    ensures MOST_PUBLICATION_WAITS as real * PUBLICATION_POLL >= PUBLICATION_WAIT
    ensures (MOST_PUBLICATION_WAITS - 1) as real * PUBLICATION_POLL < PUBLICATION_WAIT
  {
  }

  /** Whether a failed attempt is waited out, `waited` of the budget being charged before it. */
  ghost predicate GoesOn(episode: PresendWait, waited: real, attempt: Attempt) {
    && !attempt.refusal.Final? && !attempt.controlStops
    && (episode.interactiveBound.Some? ==> attempt.elapsed < episode.interactiveBound.value)
    && (episode.owned || attempt.elapsed < LOCK_TIMEOUT)
    && (attempt.refusal.Pending? ==> waited + attempt.refusal.probe < PUBLICATION_WAIT)
  }

  /** The budget charged by the first `n` waits: each publication its probe, and the planned sleep
      (the poll, or what is left) or the real one when that took longer. */
  ghost function ChargedBy(failures: seq<Attempt>, n: nat): real
    requires n <= |failures|
  {
    if n == 0 then 0.0
    else
      var before := ChargedBy(failures, n - 1);
      match failures[n - 1].refusal
      case Pending(probe) =>
        var left := PUBLICATION_WAIT - (before + probe);
        before + probe + Max(Min(PUBLICATION_POLL, left), failures[n - 1].slept)
      case _ => before
  }

  /** The retry loop over the attempts that failed. However contention and pending
      publications alternate, the publication waits number at most the budget over the poll,
      and the contention in between costs that budget nothing. */
  method RetryPresend(
      episode: PresendWait, failures: seq<Attempt>) returns (publicationWaits: nat, contentionWaits: nat, at: nat)
    requires episode.publicationWaited == 0.0
    requires forall a :: a in failures && a.refusal.Pending? ==> a.refusal.probe >= 0.0
    modifies episode
    ensures publicationWaits <= MOST_PUBLICATION_WAITS
    ensures publicationWaits + contentionWaits == at <= |failures|
    ensures episode.publicationWaited >= Min(PUBLICATION_WAIT, publicationWaits as real * PUBLICATION_POLL)
    ensures publicationWaits == 0 ==> episode.publicationWaited == 0.0 || at < |failures|
    ensures forall k :: 0 <= k < at ==> GoesOn(episode, ChargedBy(failures, k), failures[k])
    ensures at < |failures| ==> !GoesOn(episode, ChargedBy(failures, at), failures[at])
    ensures at == |failures| ==> episode.publicationWaited == ChargedBy(failures, at)
  {
    publicationWaits, contentionWaits, at := 0, 0, 0;
    while at < |failures|
      invariant publicationWaits + contentionWaits == at <= |failures|
      invariant publicationWaits <= MOST_PUBLICATION_WAITS
      invariant episode.publicationWaited >= Min(PUBLICATION_WAIT, publicationWaits as real * PUBLICATION_POLL)
      invariant publicationWaits == 0 ==> episode.publicationWaited == 0.0
      invariant episode.publicationWaited == ChargedBy(failures, at)
      invariant forall k :: 0 <= k < at ==> GoesOn(episode, ChargedBy(failures, k), failures[k])
    {
      var attempt := failures[at];
      assert attempt in failures;
      var verdict := episode.Wait(attempt);
      if !verdict.Sleep? {
        return;
      }
      if attempt.refusal.Pending? {
        publicationWaits := publicationWaits + 1;
      } else {
        contentionWaits := contentionWaits + 1;
      }
      at := at + 1;
    }
  }
}
