/** The two readings of a receipt log: red verifications, and masked passes. */
module OutcomeReceipts {
  import opened Options
  import opened ReceiptIdentity
  import opened Outstanding

  const RED_RECONCILING_STATUSES := {"pass", "observed"}

  predicate IsMaskedPass(receipt: Receipt) {
    receipt.status == "pass" && receipt.exitMasking
  }

  /** The key the scan compares, if the receipt names anything in this mode. */
  function ScanKey(receipt: Receipt, masked: bool): Option<IdentityKey> {
    var key := ReconciliationKey(receipt, masked);
    if key.kind == NoIdentity then None else Some(key)
  }

  function RedScan(statuses: set<string>): Scan<Receipt, IdentityKey> {
    Scan((r: Receipt) => r.status == "fail",
         (r: Receipt) => r.status in statuses,
         (r: Receipt) => ScanKey(r, false))
  }

  function MaskedScan(statuses: set<string>): Scan<Receipt, IdentityKey> {
    Scan(IsMaskedPass,
         (r: Receipt) => r.status in statuses && !r.exitMasking,
         (r: Receipt) => ScanKey(r, true))
  }

  method UnreconciledFailed(receipts: seq<Receipt>, statuses: set<string>) returns (open: seq<Receipt>)
    ensures open == RedScan(statuses).OpenReceipts(receipts)
  {
    open := OutstandingReceipts(RedScan(statuses), receipts);
  }

  method UnreconciledMasked(receipts: seq<Receipt>, statuses: set<string>) returns (open: seq<Receipt>)
    ensures open == MaskedScan(statuses).OpenReceipts(receipts)
  {
    open := OutstandingReceipts(MaskedScan(statuses), receipts);
  }

  /** In the red reading, two receipts are the same verification exactly when both name it;
      a green clears a red exactly when it names the same one, or the red named nothing. */
  lemma RedReading(statuses: set<string>, later: Receipt, earlier: Receipt)
    ensures RedScan(statuses).Same(later, earlier) <==> Named(later) == Named(earlier) && Named(earlier) != Unnamed
    ensures RedScan(statuses).Clears(later, earlier) <==>
        later.status in statuses && (Named(earlier) == Unnamed || Named(later) == Named(earlier))
  {
    KeyIdentifiesVerification(later, earlier);
    KeyIdentifiesVerification(earlier, later);
  }

  /** In the masked reading only the criterion counts: no check text, no path. */
  lemma MaskedReading(statuses: set<string>, later: Receipt, earlier: Receipt)
    ensures MaskedScan(statuses).Same(later, earlier) <==>
        later.criterionId == earlier.criterionId && earlier.criterionId != ""
    ensures MaskedScan(statuses).Clears(later, earlier) <==>
        later.status in statuses && !later.exitMasking &&
        (earlier.criterionId == "" || later.criterionId == earlier.criterionId)
  {
  }

  lemma SameIdentityIsSameName(statuses: set<string>, one: Receipt, other: Receipt)
    ensures RedScan(statuses).identity(one) == RedScan(statuses).identity(other) <==> Named(one) == Named(other)
    ensures RedScan(statuses).identity(one).Some? <==> Named(one) != Unnamed
  {
    KeyIdentifiesVerification(one, other);
    KeyIdentifiesVerification(other, one);
  }

  /** A verification named by some red receipt is red at the end of the log exactly when no
      grounding of the same verification follows its last red, and it is reported once, by
      that last red. */
  lemma RedExactlyWhenLastRedIsLast(statuses: set<string>, log: seq<Receipt>, last: nat)
    requires last < |log| && log[last].status == "fail" && Named(log[last]) != Unnamed
    requires forall q :: last < q < |log| && log[q].status == "fail" ==> Named(log[q]) != Named(log[last])
    ensures (exists r :: r in RedScan(statuses).OpenReceipts(log) && Named(r) == Named(log[last]))
        <==> forall q :: last < q < |log| && log[q].status in statuses ==> Named(log[q]) != Named(log[last])
    ensures forall r :: r in RedScan(statuses).OpenReceipts(log) && Named(r) == Named(log[last]) ==> r == log[last]
  {
    var scan := RedScan(statuses);
    forall r: Receipt ensures scan.identity(r) == scan.identity(log[last]) <==> Named(r) == Named(log[last]) {
      SameIdentityIsSameName(statuses, r, log[last]);
    }
    SameIdentityIsSameName(statuses, log[last], log[last]);
    OutstandingKey(scan, log, scan.identity(log[last]).value, last);
  }

  lemma MachineOfTwoReds(a: Receipt, b: Receipt)
    requires a.status == "fail" && b.status == "fail" && Named(a) != Named(b)
    ensures RedScan(RED_RECONCILING_STATUSES).Machine([a, b]) == [a, b]
  {
    var scan := RedScan(RED_RECONCILING_STATUSES);
    RedReading(RED_RECONCILING_STATUSES, b, a);
    assert [a, b][..1] == [a] && [a][..0] == [];
    assert scan.Machine([a]) == [a];
    assert [a][..0] == [] && scan.Survivors([a], b) == [a];
  }

  lemma GreenLeavesTheOther(a: Receipt, b: Receipt, passB: Receipt)
    requires passB.status == "pass" && Named(a) != Named(b) && Named(passB) == Named(b)
    requires Unnamed !in {Named(a), Named(b)}
    ensures RedScan(RED_RECONCILING_STATUSES).Survivors([a, b], passB) == [a]
  {
    var scan := RedScan(RED_RECONCILING_STATUSES);
    RedReading(RED_RECONCILING_STATUSES, passB, a);
    RedReading(RED_RECONCILING_STATUSES, passB, b);
    assert [a, b][..1] == [a] && [a][..0] == [];
    assert scan.Survivors([a], passB) == [a];
  }

  /** A failing check A, a failing check B and a passing check B leave exactly A red. */
  lemma LatestPointerWouldForget(a: Receipt, b: Receipt, passB: Receipt)
    requires a.status == "fail" && b.status == "fail" && passB.status == "pass"
    requires Named(a) != Named(b) && Named(passB) == Named(b) && Unnamed !in {Named(a), Named(b)}
    ensures RedScan(RED_RECONCILING_STATUSES).OpenReceipts([a, b, passB]) == [a]
  {
    MachineIsOpenReceipts(RedScan(RED_RECONCILING_STATUSES), [a, b, passB]);
    assert [a, b, passB][..2] == [a, b];
    MachineOfTwoReds(a, b);
    GreenLeavesTheOther(a, b, passB);
  }

  /** Only a failure is ever reported red, and only a pass whose check may hide its exit code is
      ever reported masked: a clean pass never is. */
  lemma OnlyCandidatesAreReported(statuses: set<string>, log: seq<Receipt>, r: Receipt)
    ensures r in RedScan(statuses).OpenReceipts(log) ==> r in log && r.status == "fail"
    ensures r in MaskedScan(statuses).OpenReceipts(log) ==> r in log && r.status == "pass" && r.exitMasking
  {
    OpenAreCandidates(RedScan(statuses), log, r);
    OpenAreCandidates(MaskedScan(statuses), log, r);
  }

  /** A masked pass of a criterion is reported exactly when no clean grounding of that criterion
      follows its last masked pass, and then once, as that last one. */
  lemma MaskedExactlyWhenLastMaskIsLast(statuses: set<string>, log: seq<Receipt>, last: nat)
    requires last < |log| && IsMaskedPass(log[last]) && log[last].criterionId != ""
    requires forall q :: last < q < |log| && IsMaskedPass(log[q]) ==> log[q].criterionId != log[last].criterionId
    ensures (exists r :: r in MaskedScan(statuses).OpenReceipts(log) && r.criterionId == log[last].criterionId)
        <==> forall q :: last < q < |log| && log[q].status in statuses && !log[q].exitMasking ==>
               log[q].criterionId != log[last].criterionId
    ensures forall r :: r in MaskedScan(statuses).OpenReceipts(log) && r.criterionId == log[last].criterionId ==>
      r == log[last]
  {
    var scan := MaskedScan(statuses);
    assert forall r: Receipt ::
      scan.identity(r) == scan.identity(log[last]) <==> r.criterionId == log[last].criterionId;
    OutstandingKey(scan, log, scan.identity(log[last]).value, last);
  }
}
