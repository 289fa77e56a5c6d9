/** What every reachable summary satisfies, by way of the fold it is equal to. */
module UsageInvariants {
  import opened Options
  import opened UsageMoney
  import opened UsageRows
  import opened UsageBucket
  import opened UsageReversal

  ghost predicate Balanced(cash: Cash) {
    && cash.settled == cash.confirmed + cash.estimated
    && cash.confirmed >= 0.0 && cash.estimated >= 0.0 && cash.reserved >= 0.0 && cash.unresolved >= 0.0
  }

  ghost predicate Ordered(flags: Flags) {
    && 0 <= flags.unknown <= flags.nonFinal
    && 0 <= flags.trackedNonfinal <= flags.accountingOpen <= flags.nonFinal
    && flags.trackedNonfinal <= flags.priced
  }

  ghost predicate Honest(total: Totals, rows: nat, anyOpen: bool) {
    && total.rows == rows
    && Balanced(total.cash) && Ordered(total.flags)
    && (total.flags.nonFinal > 0 <==> anyOpen)
  }

  lemma AddedIsHonest(total: Totals, rows: nat, anyOpen: bool, delta: Totals, opens: bool, cap: Option<string>)
    requires Honest(total, rows, anyOpen) && Honest(delta, 1, opens)
    ensures Honest(Added(total, delta, Plus, cap), rows + 1, anyOpen || opens)
  {
  }

  lemma CameIsHonest(total: Totals, rows: nat, anyOpen: bool, entry: Entry)
    requires Honest(total, rows, anyOpen)
    ensures Honest(Came(total, entry), rows + 1, anyOpen || IsOpen(entry.row))
  {
    ContributionIsBalanced(entry.row.money);
    DeltaFlags(entry.row);
    AddedIsHonest(total, rows, anyOpen, SummaryDelta(entry.row), IsOpen(entry.row), entry.cap);
  }

  ghost predicate AnyOpen(entries: seq<Entry>) {
    exists e :: e in entries && IsOpen(e.row)
  }

  lemma AnyOpenOfLonger(entries: seq<Entry>, last: Entry)
    ensures AnyOpen(entries + [last]) <==> AnyOpen(entries) || IsOpen(last.row)
  {
    assert (entries + [last])[|entries|] == last;
    if AnyOpen(entries) {
      var e :| e in entries && IsOpen(e.row);
      assert e in entries + [last];
    }
  }

  /** Settled spend is exactly confirmed plus estimated, every exposure is non-negative, and
      the summary calls the cost final exactly when no row behind it is open. */
  lemma {:induction false} SummaryIsHonest(entries: seq<Entry>)
    ensures Honest(Fold(entries), |entries|, AnyOpen(entries))
  {
    if entries != [] {
      var earlier, last := entries[..|entries| - 1], entries[|entries| - 1];
      SummaryIsHonest(earlier);
      CameIsHonest(Fold(earlier), |earlier|, AnyOpen(earlier), last);
      AnyOpenOfLonger(earlier, last);
      assert entries == earlier + [last];
    }
  }

  lemma CapArrives(caps: map<string, int>, cap: Option<string>)
    requires forall key :: key in caps ==> caps[key] > 0
    ensures var sum := Merged(caps, CapCounts(cap), CountStep(Plus));
      && (forall key :: key in sum ==> sum[key] > 0)
      && sum.Keys == caps.Keys + CapCounts(cap).Keys
  {
    var sum := Merged(caps, CapCounts(cap), CountStep(Plus));
    forall key ensures key in sum <==> key in caps.Keys + CapCounts(cap).Keys {
      MergedAt(caps, CapCounts(cap), CountStep(Plus), key);
    }
    forall key | key in sum ensures sum[key] > 0 {
      MergedAt(caps, CapCounts(cap), CountStep(Plus), key);
    }
  }

  ghost function LiveCaps(entries: seq<Entry>): set<string> {
    set e | e in entries && e.cap.Some? :: e.cap.value
  }

  ghost predicate CapsAre(total: Totals, live: set<string>) {
    HeldCaps(total.caps) == live && forall key :: key in total.caps ==> total.caps[key] > 0
  }

  lemma AddedCaps(total: Totals, live: set<string>, delta: Totals, cap: Option<string>)
    requires CapsAre(total, live)
    ensures CapsAre(Added(total, delta, Plus, cap), live + CapCounts(cap).Keys)
  {
    CapArrives(total.caps, cap);
  }

  /** The cap multiset names exactly the caps of the live rows, so the least cap of a bucket
      is the least cap any live row carries, however many rows carrying caps came and went. */
  lemma {:induction false} CapsAreLiveCaps(entries: seq<Entry>)
    ensures CapsAre(Fold(entries), LiveCaps(entries))
  {
    if entries != [] {
      var earlier, last := entries[..|entries| - 1], entries[|entries| - 1];
      CapsAreLiveCaps(earlier);
      AddedCaps(Fold(earlier), LiveCaps(earlier), SummaryDelta(last.row), last.cap);
      LiveCapsGrow(earlier, last);
      assert entries == earlier + [last];
    }
  }

  lemma LiveCapsGrow(earlier: seq<Entry>, last: Entry)
    ensures LiveCaps(earlier + [last]) == LiveCaps(earlier) + CapCounts(last.cap).Keys
  {
    var longer := earlier + [last];
    forall cap ensures cap in LiveCaps(longer) <==> cap in LiveCaps(earlier) + CapCounts(last.cap).Keys {
      if cap in LiveCaps(earlier) {
        var e :| e in earlier && e.cap == Some(cap);
        assert e in longer;
      }
      if cap in CapCounts(last.cap).Keys {
        assert longer[|earlier|] == last;
      }
    }
  }

  ghost predicate Reports(entries: seq<Entry>, axis: TokenAxis) {
    exists e :: e in entries && axis in e.row.tokens
  }

  lemma ReportsOfLonger(entries: seq<Entry>, last: Entry, axis: TokenAxis)
    ensures Reports(entries + [last], axis) <==> Reports(entries, axis) || axis in last.row.tokens
  {
    assert (entries + [last])[|entries|] == last;
    if Reports(entries, axis) {
      var e :| e in entries && axis in e.row.tokens;
      assert e in entries + [last];
    }
  }

  lemma AddedTokens(total: Totals, delta: Totals, cap: Option<string>, axis: TokenAxis)
    requires Held(total.tokens) && ReportedOnce(delta.tokens)
    ensures axis in Added(total, delta, Plus, cap).tokens <==> axis in total.tokens || axis in delta.tokens
  {
    MergedAt(total.tokens, delta.tokens, PairStep(Plus), axis);
    if axis in delta.tokens {
      PairUndone(At(total.tokens, axis), delta.tokens[axis]);
    }
  }

  ghost predicate TokensPresent(total: Totals, axis: TokenAxis, reported: bool) {
    Canonical(total) && (axis in total.tokens <==> reported)
  }

  lemma CameTokens(total: Totals, entry: Entry, axis: TokenAxis, reported: bool)
    requires TokensPresent(total, axis, reported)
    ensures TokensPresent(Came(total, entry), axis, reported || axis in entry.row.tokens)
  {
    DeltaIsContribution(entry.row);
    AddedTokens(total, SummaryDelta(entry.row), entry.cap, axis);
    CameIsCanonical(total, entry);
  }

  ghost predicate TokensTell(entries: seq<Entry>, axis: TokenAxis) {
    axis in Fold(entries).tokens <==> Reports(entries, axis)
  }

  lemma NoRowTells(axis: TokenAxis)
    ensures TokensTell([], axis)
  {
  }

  lemma OneMoreTells(entries: seq<Entry>, axis: TokenAxis)
    requires entries != [] && TokensTell(entries[..|entries| - 1], axis)
    ensures TokensTell(entries, axis)
  {
    var earlier, last := entries[..|entries| - 1], entries[|entries| - 1];
    assert entries == earlier + [last];
    FoldIsCanonical(earlier);
    CameTokens(Fold(earlier), last, axis, Reports(earlier, axis));
    ReportsOfLonger(earlier, last, axis);
    FoldOfLonger(earlier, last);
  }

  lemma {:induction false} TokensOfFold(entries: seq<Entry>, axis: TokenAxis)
    ensures TokensTell(entries, axis)
  {
    if entries == [] {
      NoRowTells(axis);
    } else {
      TokensOfFold(entries[..|entries| - 1], axis);
      OneMoreTells(entries, axis);
    }
  }

  /** A token axis is present exactly while some live row reported it: an absent count never
      becomes a measured zero, and a reported zero stays one. */
  lemma TokensArePresentWhileReported(entries: seq<Entry>, axis: TokenAxis)
    ensures TokensPresent(Fold(entries), axis, Reports(entries, axis))
  {
    FoldIsCanonical(entries);
    TokensOfFold(entries, axis);
  }

  // ---- of every running bucket ----

  lemma Listed(rows: multiset<Entry>) returns (entries: seq<Entry>)
    ensures multiset(entries) == rows
    decreases |rows|
  {
    if rows == multiset{} { return []; }
    var row :| row in rows;
    var others := Listed(rows - multiset{row});
    entries := others + [row];
    assert rows == (rows - multiset{row}) + multiset{row};
  }

  ghost predicate OpenAmong(rows: multiset<Entry>) {
    exists e :: e in rows && IsOpen(e.row)
  }

  ghost function CapsAmong(rows: multiset<Entry>): set<string> {
    set e | e in rows && e.cap.Some? :: e.cap.value
  }

  ghost predicate ReportedAmong(rows: multiset<Entry>, axis: TokenAxis) {
    exists e :: e in rows && axis in e.row.tokens
  }

  lemma AmongIsListed(entries: seq<Entry>, axis: TokenAxis)
    ensures OpenAmong(multiset(entries)) == AnyOpen(entries)
    ensures CapsAmong(multiset(entries)) == LiveCaps(entries)
    ensures ReportedAmong(multiset(entries), axis) == Reports(entries, axis)
  {
    assert forall e :: e in entries <==> e in multiset(entries);
  }

  /** In every bucket any run of the store reaches: settled spend is exactly confirmed plus
      estimated, the cost is final exactly when no live row is open, the caps held are those of
      the live rows, and a token axis is present exactly while a live row reported it. */
  lemma RunningIsHonest(run: seq<Change>, axis: TokenAxis)
    requires Live(run).Some?
    ensures var rows := Live(run).value;
      && Honest(Running(run), |rows|, OpenAmong(rows))
      && CapsAre(Running(run), CapsAmong(rows))
      && TokensPresent(Running(run), axis, ReportedAmong(rows, axis))
  {
    var entries := Listed(Live(run).value);
    RunningEqualsFold(run, entries);
    SummaryIsHonest(entries);
    CapsAreLiveCaps(entries);
    TokensArePresentWhileReported(entries, axis);
    AmongIsListed(entries, axis);
    assert |multiset(entries)| == |entries|;
  }

  /** The windows are the exempt member: subtracting a row leaves its route's reset standing,
      while every additive member is back where it was. */
  method WindowsOutliveTheirRow(session: Row) returns (bucket: Bucket)
    requires RowWindows(session) != map[]
    ensures bucket.totals == EMPTY && bucket.windows != map[]
  {
    bucket := new Bucket();
    DeltaIsContribution(session);
    AddedCancels(EMPTY, SummaryDelta(session), None);
    bucket.Add(SummaryDelta(session), RowWindows(session), Plus, None);
    bucket.Add(SummaryDelta(session), RowWindows(session), Minus, None);
    MergedAt(map[], RowWindows(session), WindowStep(), session.route);
  }
}
