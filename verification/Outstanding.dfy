/** Which verifications are still open: the scan over the receipt log, what it means, and
    the one-pass machine it is equal to. */
module Outstanding {
  import opened Options

  /** One reading of a log of receipts `R`: which of them open a verification, which can
      ground one, and the identity `K` a receipt names, if any. */
  datatype Scan<!R, !K(==)> = Scan(isCandidate: R -> bool, isReconciler: R -> bool, identity: R -> Option<K>) {
    predicate Keyed(receipt: R) {
      identity(receipt).Some?
    }

    /** Equal identities, or an `earlier` that has none to compare. */
    predicate Reconciles(later: R, earlier: R) {
      !Keyed(earlier) || identity(later) == identity(earlier)
    }

    predicate Same(one: R, other: R) {
      Keyed(one) && identity(one) == identity(other)
    }

    /** A reconciler that does clear `earlier`. */
    predicate Clears(later: R, earlier: R) {
      isReconciler(later) && Reconciles(later, earlier)
    }

    /** A newer candidate of the same keyed verification. */
    predicate Renews(later: R, earlier: R) {
      isCandidate(later) && Same(later, earlier)
    }

    // ---- the meaning: a property of a position in the log ----

    ghost predicate Cleared(log: seq<R>, at: nat)
      requires at < |log|
    {
      exists q :: at < q < |log| && Clears(log[q], log[at])
    }

    /** Among the first `upto` receipts, an uncleared newer one took this one's place. */
    ghost predicate Renewed(log: seq<R>, at: nat, upto: nat)
      requires at < |log| && upto <= |log|
    {
      exists q :: at < q < upto && Renews(log[q], log[at]) && !Cleared(log, q)
    }

    ghost predicate Standing(log: seq<R>, at: nat, upto: nat)
      requires at < |log| && upto <= |log|
    {
      isCandidate(log[at]) && !Cleared(log, at) && !Renewed(log, at, upto)
    }

    /** Open: a candidate that nothing later clears and nothing later renews. */
    ghost predicate Open(log: seq<R>, at: nat)
      requires at < |log|
    {
      isCandidate(log[at]) && forall q :: at < q < |log| ==> !Clears(log[q], log[at]) && !Renews(log[q], log[at])
    }

    /** The receipts of the open positions, in log order. */
    ghost function OpenReceipts(log: seq<R>): seq<R> {
      Pick(log, |log|, set p: nat | p < |log| && Open(log, p))
    }

    // ---- the one-pass machine ----

    function Survivors(entries: seq<R>, next: R): seq<R> {
      if entries == [] then []
      else
        var rest := Survivors(entries[..|entries| - 1], next);
        var entry := entries[|entries| - 1];
        if Clears(next, entry) || Renews(next, entry) then rest else rest + [entry]
    }

    /** One receipt: a reconciler drops its own key and every keyless entry, a candidate
        drops its own key and goes last. */
    function MachineStep(entries: seq<R>, next: R): seq<R> {
      Survivors(entries, next) + (if isCandidate(next) then [next] else [])
    }

    function Machine(log: seq<R>): seq<R> {
      if log == [] then [] else MachineStep(Machine(log[..|log| - 1]), log[|log| - 1])
    }
  }

  /** The receipts at the chosen positions among the first `n`, in log order. */
  ghost function Pick<R>(log: seq<R>, n: nat, chosen: set<nat>): seq<R>
    requires n <= |log|
  {
    if n == 0 then [] else Pick(log, n - 1, chosen) + (if n - 1 in chosen then [log[n - 1]] else [])
  }

  lemma {:induction false} PickCongruence<R>(log: seq<R>, other: seq<R>, n: nat, a: set<nat>, b: set<nat>)
    requires n <= |log| && n <= |other| && log[..n] == other[..n]
    requires forall p :: 0 <= p < n ==> (p in a <==> p in b)
    ensures Pick(log, n, a) == Pick(other, n, b)
  {
    if n > 0 {
      assert log[..n - 1] == log[..n][..n - 1] == other[..n - 1];
      assert log[n - 1] == log[..n][n - 1];
      PickCongruence(log, other, n - 1, a, b);
    }
  }

  lemma {:induction false} PickedMembers<R>(log: seq<R>, n: nat, chosen: set<nat>)
    requires n <= |log|
    ensures forall r :: r in Pick(log, n, chosen) <==> exists p :: 0 <= p < n && p in chosen && log[p] == r
  {
    if n > 0 {
      PickedMembers(log, n - 1, chosen);
    }
  }

  lemma {:induction false} SurvivorsOfPick<R(!new), K(!new)>(
      scan: Scan<R, K>, log: seq<R>, n: nat, a: set<nat>, b: set<nat>, next: R)
    requires n <= |log|
    requires forall p :: 0 <= p < n ==>
        (p in b <==> p in a && !scan.Clears(next, log[p]) && !scan.Renews(next, log[p]))
    ensures scan.Survivors(Pick(log, n, a), next) == Pick(log, n, b)
  {
    if n > 0 {
      SurvivorsOfPick(scan, log, n - 1, a, b, next);
      var shorter := Pick(log, n - 1, a);
      if n - 1 in a {
        assert (shorter + [log[n - 1]])[..|shorter|] == shorter;
      } else {
        assert Pick(log, n, a) == shorter;
      }
    }
  }

  /** The machine computes exactly the open receipts, for every log and every set of
      reconciling statuses. */
  lemma {:induction false} MachineIsOpenReceipts<R(!new), K(!new)>(scan: Scan<R, K>, log: seq<R>)
    ensures scan.Machine(log) == scan.OpenReceipts(log)
  {
    if log != [] {
      var n := |log| - 1;
      var shorter, next := log[..n], log[n];
      MachineIsOpenReceipts(scan, shorter);
      var a := set p: nat | p < n && scan.Open(shorter, p);
      var b := set p: nat | p < n + 1 && scan.Open(log, p);
      forall p | 0 <= p < n
        ensures p in b <==> p in a && !scan.Clears(next, shorter[p]) && !scan.Renews(next, shorter[p])
      {
        assert forall q :: p < q < n ==> log[q] == shorter[q];
      }
      SurvivorsOfPick(scan, shorter, n, a, b, next);
      PickCongruence(log, shorter, n, b, b);
      assert n in b <==> scan.isCandidate(next);
    }
  }

  /** A grounding that clears a newer candidate clears the one it renewed. */
  lemma ClearedTogether<R(!new), K(!new)>(scan: Scan<R, K>, log: seq<R>, at: nat, newer: nat)
    requires at < newer < |log| && scan.Renews(log[newer], log[at]) && scan.Cleared(log, newer)
    ensures scan.Cleared(log, at)
  {
    var g :| newer < g < |log| && scan.Clears(log[g], log[newer]);
    assert scan.Clears(log[g], log[at]);
  }

  /** So standing at the end of the log is being open. */
  lemma StandingAtEndIsOpen<R(!new), K(!new)>(scan: Scan<R, K>, log: seq<R>, at: nat)
    requires at < |log|
    ensures scan.Standing(log, at, |log|) <==> scan.Open(log, at)
  {
    forall newer | at < newer < |log| && scan.Renews(log[newer], log[at]) && scan.Cleared(log, newer)
      ensures scan.Cleared(log, at)
    {
      ClearedTogether(scan, log, at, newer);
    }
  }

  // ---- the scan itself ----

  /** No keyed verification occurs twice. */
  ghost predicate OnePerKey<R(!new), K(!new)>(scan: Scan<R, K>, entries: seq<R>) {
    forall i, j :: 0 <= i < j < |entries| ==> !scan.Same(entries[j], entries[i])
  }

  ghost function StandingAt<R(!new), K(!new)>(scan: Scan<R, K>, log: seq<R>, upto: nat): set<nat>
    requires upto <= |log|
  {
    set p: nat | p < upto && scan.Standing(log, p, upto)
  }

  ghost function Kept<R(!new), K(!new)>(scan: Scan<R, K>, log: seq<R>, upto: nat): seq<R>
    requires upto <= |log|
  {
    Pick(log, upto, StandingAt(scan, log, upto))
  }

  /** Removing the first entry of the same verification removes the only one. */
  lemma {:induction false} WithoutSame<R(!new), K(!new)>(
      scan: Scan<R, K>, log: seq<R>, n: nat, a: set<nat>, b: set<nat>, next: R, at: nat)
    requires n <= |log|
    requires forall p :: 0 <= p < n ==> (p in b <==> p in a && !scan.Same(next, log[p]))
    requires var entries := Pick(log, n, a);
      OnePerKey(scan, entries) && at <= |entries| &&
      (forall i :: 0 <= i < at ==> !scan.Same(next, entries[i])) &&
      (at < |entries| ==> scan.Same(next, entries[at]))
    ensures var entries := Pick(log, n, a);
      Pick(log, n, b) == if at < |entries| then entries[..at] + entries[at + 1..] else entries
  {
    if n > 0 {
      var shorter, entries := Pick(log, n - 1, a), Pick(log, n, a);
      if n - 1 in a {
        assert entries == shorter + [log[n - 1]];
        assert entries[..|shorter|] == shorter && entries[|shorter|] == log[n - 1];
        assert forall i :: 0 <= i < |shorter| ==> entries[i] == shorter[i];
        if at < |shorter| {
          assert !scan.Same(entries[|shorter|], entries[at]);
          assert entries[at] == shorter[at];
          WithoutSame(scan, log, n - 1, a, b, next, at);
        } else {
          WithoutSame(scan, log, n - 1, a, b, next, |shorter|);
          if at == |shorter| {
            assert entries[..at] + entries[at + 1..] == shorter;
          }
        }
      } else {
        assert entries == shorter;
        WithoutSame(scan, log, n - 1, a, b, next, at);
      }
    }
  }

  lemma {:induction false} KeptGrows<R(!new), K(!new)>(scan: Scan<R, K>, log: seq<R>, upto: nat, at: nat)
    requires upto < |log| && scan.isCandidate(log[upto]) && !scan.Cleared(log, upto)
    requires var entries := Kept(scan, log, upto);
      OnePerKey(scan, entries) && at <= |entries| &&
      (forall i :: 0 <= i < at ==> !scan.Same(log[upto], entries[i])) &&
      (at < |entries| ==> scan.Same(log[upto], entries[at]))
    ensures var entries := Kept(scan, log, upto);
      Kept(scan, log, upto + 1) == (if at < |entries| then entries[..at] + entries[at + 1..] else entries) + [log[upto]]
  {
    var a, b := StandingAt(scan, log, upto), StandingAt(scan, log, upto + 1);
    forall p | 0 <= p < upto ensures p in b <==> p in a && !scan.Same(log[upto], log[p]) {
      if !scan.Same(log[upto], log[p]) && scan.Renewed(log, p, upto + 1) {
        var q :| p < q < upto + 1 && scan.Renews(log[q], log[p]) && !scan.Cleared(log, q);
        assert q < upto;
        assert scan.Renewed(log, p, upto);
      }
    }
    WithoutSame(scan, log, upto, a, b, log[upto], at);
    assert upto in b;
  }

  lemma KeptSkips<R(!new), K(!new)>(scan: Scan<R, K>, log: seq<R>, upto: nat)
    requires upto < |log| && !(scan.isCandidate(log[upto]) && !scan.Cleared(log, upto))
    ensures Kept(scan, log, upto + 1) == Kept(scan, log, upto)
  {
    var a, b := StandingAt(scan, log, upto), StandingAt(scan, log, upto + 1);
    forall p | 0 <= p < upto ensures p in b <==> p in a {
      if scan.Renewed(log, p, upto + 1) {
        var q :| p < q < upto + 1 && scan.Renews(log[q], log[p]) && !scan.Cleared(log, q);
        assert q < upto;
        assert scan.Renewed(log, p, upto);
      }
    }
    PickCongruence(log, log, upto, a, b);
  }

  /** The scan in place: each candidate looks ahead for a grounding, and one that finds none
      takes the last place, ousting the entry that shares its key. */
  method OutstandingReceipts<R(!new), K(!new, ==)>(scan: Scan<R, K>, receipts: seq<R>) returns (outstanding: seq<R>)
    ensures outstanding == scan.OpenReceipts(receipts)
    ensures OnePerKey(scan, outstanding)
  {
    outstanding := [];
    for index := 0 to |receipts|
      invariant outstanding == Kept(scan, receipts, index)
      invariant OnePerKey(scan, outstanding)
    {
      var receipt := receipts[index];
      if !scan.isCandidate(receipt) {
        KeptSkips(scan, receipts, index);
        continue;
      }
      var reconciled := false;
      for later := index + 1 to |receipts|
        invariant reconciled <==> exists q :: index < q < later && scan.Clears(receipts[q], receipt)
      {
        if scan.isReconciler(receipts[later]) && scan.Reconciles(receipts[later], receipt) {
          reconciled := true;
        }
      }
      if reconciled {
        KeptSkips(scan, receipts, index);
        continue;
      }
      var position := 0;
      while position < |outstanding| && !scan.Same(receipt, outstanding[position])
        invariant position <= |outstanding|
        invariant forall i :: 0 <= i < position ==> !scan.Same(receipt, outstanding[i])
      {
        position := position + 1;
      }
      KeptGrows(scan, receipts, index, position);
      if position < |outstanding| {
        assert forall i :: position < i < |outstanding| ==> !scan.Same(outstanding[i], outstanding[position]);
        outstanding := outstanding[..position] + outstanding[position + 1..];
      }
      outstanding := outstanding + [receipt];
    }
    forall p | 0 <= p < |receipts| ensures scan.Standing(receipts, p, |receipts|) <==> scan.Open(receipts, p) {
      StandingAtEndIsOpen(scan, receipts, p);
    }
    PickCongruence(receipts, receipts, |receipts|, StandingAt(scan, receipts, |receipts|),
                   set p: nat | p < |receipts| && scan.Open(receipts, p));
  }

  // ---- consequences a reader of the log relies on ----

  /** A keyed verification is outstanding exactly when its last candidate comes after its
      last reconciler, and then it is shown by that last candidate. */
  lemma OutstandingKey<R(!new), K(!new)>(scan: Scan<R, K>, log: seq<R>, key: K, last: nat)
    requires last < |log| && scan.isCandidate(log[last]) && scan.identity(log[last]) == Some(key)
    requires forall q :: last < q < |log| ==> !(scan.isCandidate(log[q]) && scan.identity(log[q]) == Some(key))
    ensures (exists r :: r in scan.OpenReceipts(log) && scan.identity(r) == Some(key))
        <==> forall q :: last < q < |log| ==> !(scan.isReconciler(log[q]) && scan.identity(log[q]) == Some(key))
    ensures forall r :: r in scan.OpenReceipts(log) && scan.identity(r) == Some(key) ==> r == log[last]
  {
    var chosen := set p: nat | p < |log| && scan.Open(log, p);
    PickedMembers(log, |log|, chosen);
    forall r | r in scan.OpenReceipts(log) && scan.identity(r) == Some(key)
      ensures r == log[last] && scan.Open(log, last)
    {
      var p :| 0 <= p < |log| && p in chosen && log[p] == r;
      assert p <= last;
      assert p < last ==> scan.Renews(log[last], log[p]);
    }
    if forall q :: last < q < |log| ==> !(scan.isReconciler(log[q]) && scan.identity(log[q]) == Some(key)) {
      assert scan.Open(log, last);
      assert last in chosen;
      assert log[last] in scan.OpenReceipts(log);
    }
  }

  /** A new red never erases another identity, and never appears beside its own older one. */
  lemma NewRedKeepsOthers<R(!new), K(!new)>(scan: Scan<R, K>, log: seq<R>, red: R, other: R)
    requires scan.isCandidate(red) && !scan.isReconciler(red)
    requires other != red
    ensures other in scan.OpenReceipts(log + [red]) <==> other in scan.OpenReceipts(log) && !scan.Same(red, other)
    ensures red in scan.OpenReceipts(log + [red])
  {
    MachineIsOpenReceipts(scan, log);
    MachineIsOpenReceipts(scan, log + [red]);
    assert (log + [red])[..|log|] == log;
    SurvivorsMembers(scan, scan.Machine(log), red);
  }

  /** A grounding clears its own key and every receipt that named nothing, and nothing else. */
  lemma GroundingClearsItsKey<R(!new), K(!new)>(scan: Scan<R, K>, log: seq<R>, green: R, other: R)
    requires scan.isReconciler(green) && !scan.isCandidate(green)
    ensures other in scan.OpenReceipts(log + [green])
        <==> other in scan.OpenReceipts(log) && scan.Keyed(other) && scan.identity(other) != scan.identity(green)
  {
    MachineIsOpenReceipts(scan, log);
    MachineIsOpenReceipts(scan, log + [green]);
    assert (log + [green])[..|log|] == log;
    SurvivorsMembers(scan, scan.Machine(log), green);
  }

  lemma {:induction false} SurvivorsMembers<R(!new), K(!new)>(scan: Scan<R, K>, entries: seq<R>, next: R)
    ensures forall r :: r in scan.Survivors(entries, next) <==>
        (r in entries && !scan.Clears(next, r) && !scan.Renews(next, r))
  {
    if entries != [] {
      SurvivorsMembers(scan, entries[..|entries| - 1], next);
      assert entries == entries[..|entries| - 1] + [entries[|entries| - 1]];
    }
  }

  /** Keyless reds are never merged: with no grounding after it, each one stays, even a
      byte-identical one. */
  lemma {:induction false} KeylessStaySeparate<R(!new), K(!new)>(scan: Scan<R, K>, log: seq<R>, red: R)
    requires scan.isCandidate(red) && !scan.isReconciler(red) && !scan.Keyed(red)
    ensures scan.OpenReceipts(log + [red]) == scan.OpenReceipts(log) + [red]
  {
    MachineIsOpenReceipts(scan, log);
    MachineIsOpenReceipts(scan, log + [red]);
    assert (log + [red])[..|log|] == log;
    NothingDropped(scan, scan.Machine(log), red);
  }

  lemma {:induction false} NothingDropped<R(!new), K(!new)>(scan: Scan<R, K>, entries: seq<R>, next: R)
    requires !scan.isReconciler(next) && !scan.Keyed(next)
    ensures scan.Survivors(entries, next) == entries
  {
    if entries != [] {
      NothingDropped(scan, entries[..|entries| - 1], next);
      assert entries == entries[..|entries| - 1] + [entries[|entries| - 1]];
    }
  }

  /** Nothing is reported that the log does not hold as a candidate. */
  lemma OpenAreCandidates<R(!new), K(!new)>(scan: Scan<R, K>, log: seq<R>, r: R)
    ensures r in scan.OpenReceipts(log) ==> r in log && scan.isCandidate(r)
  {
    PickedMembers(log, |log|, set p: nat | p < |log| && scan.Open(log, p));
  }
}
