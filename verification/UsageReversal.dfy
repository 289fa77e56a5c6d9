/** The running bucket and a fresh fold over the live rows agree, whatever came and went. */
module UsageReversal {
  import opened Options
  import opened UsageMoney
  import opened UsageRows
  import opened UsageBucket

  /** A stored row with the cap literal it carries on the bucket's own axis. */
  datatype Entry = Entry(row: Row, cap: Option<string>)

  function Came(total: Totals, entry: Entry): Totals {
    Added(total, SummaryDelta(entry.row), Plus, entry.cap)
  }

  function Went(total: Totals, entry: Entry): Totals {
    Added(total, SummaryDelta(entry.row), Minus, entry.cap)
  }

  /** The fresh reading: every row added to an empty bucket. */
  function Fold(entries: seq<Entry>): Totals {
    if entries == [] then EMPTY else Came(Fold(entries[..|entries| - 1]), entries[|entries| - 1])
  }

  // ---- reachable buckets hold no empty entry ----

  ghost predicate Held<K(!new)>(pairs: map<K, Pair>) {
    forall key :: key in pairs ==> pairs[key].present > 0
  }

  ghost predicate Canonical(total: Totals) {
    && (forall key :: key in total.counts ==> total.counts[key] != 0)
    && (forall key :: key in total.caps ==> total.caps[key] != 0)
    && Held(total.figures) && Held(total.tokens) && Held(total.ttls)
    && HeldLabels(total.labels)
  }

  lemma HeldStays<K(!new)>(pairs: map<K, Pair>, addition: map<K, Pair>)
    requires Held(pairs) && ReportedOnce(addition)
    ensures Held(Merged(pairs, addition, PairStep(Plus)))
    ensures addition != map[] ==> Merged(pairs, addition, PairStep(Plus)) != map[]
  {
    var sum := Merged(pairs, addition, PairStep(Plus));
    forall key | key in addition ensures key in sum {
      MergedAt(pairs, addition, PairStep(Plus), key);
      PairUndone(At(pairs, key), addition[key]);
    }
    forall key | key in sum ensures sum[key].present > 0 {
      MergedAt(pairs, addition, PairStep(Plus), key);
      if key in addition {
        PairUndone(At(pairs, key), addition[key]);
      }
    }
    if addition != map[] {
      var key :| key in addition;
      assert key in sum;
    }
  }

  lemma PairUndone(prior: Option<Pair>, part: Pair)
    requires prior.Some? ==> prior.value.present > 0
    requires part.present == 1
    ensures PairAfter(Minus, PairAfter(Plus, prior, part), part) == prior
    ensures PairAfter(Plus, prior, part).Some? && PairAfter(Plus, prior, part).value.present > 0
  {
  }

  lemma PairsSwapped(prior: Option<Pair>, a: Pair, b: Pair)
    requires prior.Some? ==> prior.value.present > 0
    requires a.present == b.present == 1
    ensures PairAfter(Plus, PairAfter(Plus, prior, a), b) == PairAfter(Plus, PairAfter(Plus, prior, b), a)
  {
  }

  lemma CountsStay(counts: map<string, int>, addition: map<string, int>)
    requires forall key :: key in counts ==> counts[key] != 0
    ensures var sum := Merged(counts, addition, CountStep(Plus)); forall key :: key in sum ==> sum[key] != 0
  {
    var sum := Merged(counts, addition, CountStep(Plus));
    forall key | key in sum ensures sum[key] != 0 {
      MergedAt(counts, addition, CountStep(Plus), key);
    }
  }

  ghost predicate HeldLabels(labels: map<LabelAxis, map<string, Pair>>) {
    forall axis :: axis in labels ==> labels[axis] != map[] && Held(labels[axis])
  }

  lemma LabelsStay(labels: map<LabelAxis, map<string, Pair>>, addition: map<LabelAxis, map<string, Pair>>)
    requires HeldLabels(labels) && ReportedLabels(addition)
    ensures HeldLabels(Merged(labels, addition, LabelStep(Plus)))
  {
    var sum := Merged(labels, addition, LabelStep(Plus));
    forall axis | axis in sum ensures sum[axis] != map[] && Held(sum[axis]) {
      MergedAt(labels, addition, LabelStep(Plus), axis);
      if axis in addition {
        HeldStays(At(labels, axis).GetOr(map[]), addition[axis]);
      }
    }
  }

  lemma AddedIsCanonical(total: Totals, delta: Totals, cap: Option<string>)
    requires Canonical(total) && IsContribution(delta)
    ensures Canonical(Added(total, delta, Plus, cap))
  {
    HeldStays(total.figures, delta.figures);
    HeldStays(total.tokens, delta.tokens);
    HeldStays(total.ttls, delta.ttls);
    LabelsStay(total.labels, delta.labels);
    CountsStay(total.counts, delta.counts);
    CountsStay(total.caps, CapCounts(cap));
  }

  lemma CameIsCanonical(total: Totals, entry: Entry)
    requires Canonical(total)
    ensures Canonical(Came(total, entry))
  {
    DeltaIsContribution(entry.row);
    AddedIsCanonical(total, SummaryDelta(entry.row), entry.cap);
  }

  lemma {:induction false} FoldIsCanonical(entries: seq<Entry>)
    ensures Canonical(Fold(entries))
  {
    if entries != [] {
      FoldIsCanonical(entries[..|entries| - 1]);
      CameIsCanonical(Fold(entries[..|entries| - 1]), entries[|entries| - 1]);
    }
  }

  // ---- taking back what was added ----

  lemma MergeCancels<K(!new), V, W>(
      target: map<K, V>, addition: map<K, W>, forth: (Option<V>, W) -> Option<V>, back: (Option<V>, W) -> Option<V>)
    requires forall key :: key in addition ==>
        back(forth(At(target, key), addition[key]), addition[key]) == At(target, key)
    ensures Merged(Merged(target, addition, forth), addition, back) == target
  {
    var there := Merged(target, addition, forth);
    forall key ensures At(Merged(there, addition, back), key) == At(target, key) {
      MergedAt(target, addition, forth, key);
      MergedAt(there, addition, back, key);
    }
    SameLookups(Merged(there, addition, back), target);
  }

  lemma PairsCancel<K(!new)>(pairs: map<K, Pair>, addition: map<K, Pair>)
    requires Held(pairs) && ReportedOnce(addition)
    ensures Merged(Merged(pairs, addition, PairStep(Plus)), addition, PairStep(Minus)) == pairs
  {
    forall key | key in addition
      ensures PairStep(Minus)(PairStep(Plus)(At(pairs, key), addition[key]), addition[key]) == At(pairs, key)
    {
      PairUndone(At(pairs, key), addition[key]);
    }
    MergeCancels(pairs, addition, PairStep(Plus), PairStep(Minus));
  }

  lemma CountsCancel(counts: map<string, int>, addition: map<string, int>)
    requires forall key :: key in counts ==> counts[key] != 0
    ensures Merged(Merged(counts, addition, CountStep(Plus)), addition, CountStep(Minus)) == counts
  {
    MergeCancels(counts, addition, CountStep(Plus), CountStep(Minus));
  }

  lemma LabelsCancel(labels: map<LabelAxis, map<string, Pair>>, addition: map<LabelAxis, map<string, Pair>>)
    requires HeldLabels(labels) && ReportedLabels(addition)
    ensures Merged(Merged(labels, addition, LabelStep(Plus)), addition, LabelStep(Minus)) == labels
  {
    forall axis | axis in addition
      ensures LabelStep(Minus)(LabelStep(Plus)(At(labels, axis), addition[axis]), addition[axis]) == At(labels, axis)
    {
      var held := At(labels, axis).GetOr(map[]);
      PairsCancel(held, addition[axis]);
      HeldStays(held, addition[axis]);
    }
    MergeCancels(labels, addition, LabelStep(Plus), LabelStep(Minus));
  }

  lemma AddedCancels(total: Totals, delta: Totals, cap: Option<string>)
    requires Canonical(total) && IsContribution(delta)
    ensures Added(Added(total, delta, Plus, cap), delta, Minus, cap) == total
  {
    PairsCancel(total.figures, delta.figures);
    PairsCancel(total.tokens, delta.tokens);
    PairsCancel(total.ttls, delta.ttls);
    LabelsCancel(total.labels, delta.labels);
    CountsCancel(total.counts, delta.counts);
    CountsCancel(total.caps, CapCounts(cap));
  }

  /** Subtracting what was just added gives the bucket back, entry for entry. */
  lemma WentUndoesCame(total: Totals, entry: Entry)
    requires Canonical(total)
    ensures Went(Came(total, entry), entry) == total
  {
    DeltaIsContribution(entry.row);
    AddedCancels(total, SummaryDelta(entry.row), entry.cap);
  }

  // ---- the order of arrival does not matter ----

  lemma MergeCommutes<K(!new), V, W>(target: map<K, V>, a: map<K, W>, b: map<K, W>, step: (Option<V>, W) -> Option<V>)
    requires forall key :: key in a && key in b ==>
        step(step(At(target, key), a[key]), b[key]) == step(step(At(target, key), b[key]), a[key])
    ensures Merged(Merged(target, a, step), b, step) == Merged(Merged(target, b, step), a, step)
  {
    var one, other := Merged(Merged(target, a, step), b, step), Merged(Merged(target, b, step), a, step);
    forall key ensures At(one, key) == At(other, key) {
      MergedAt(target, a, step, key);
      MergedAt(target, b, step, key);
      MergedAt(Merged(target, a, step), b, step, key);
      MergedAt(Merged(target, b, step), a, step, key);
    }
    SameLookups(one, other);
  }

  lemma PairsCommute<K(!new)>(pairs: map<K, Pair>, a: map<K, Pair>, b: map<K, Pair>)
    requires Held(pairs) && ReportedOnce(a) && ReportedOnce(b)
    ensures Merged(Merged(pairs, a, PairStep(Plus)), b, PairStep(Plus))
         == Merged(Merged(pairs, b, PairStep(Plus)), a, PairStep(Plus))
  {
    forall key | key in a && key in b
      ensures PairStep(Plus)(PairStep(Plus)(At(pairs, key), a[key]), b[key])
           == PairStep(Plus)(PairStep(Plus)(At(pairs, key), b[key]), a[key])
    {
      PairsSwapped(At(pairs, key), a[key], b[key]);
    }
    MergeCommutes(pairs, a, b, PairStep(Plus));
  }

  lemma LabelsCommute(labels: map<LabelAxis, map<string, Pair>>, a: map<LabelAxis, map<string, Pair>>,
                      b: map<LabelAxis, map<string, Pair>>)
    requires HeldLabels(labels) && ReportedLabels(a) && ReportedLabels(b)
    ensures Merged(Merged(labels, a, LabelStep(Plus)), b, LabelStep(Plus))
         == Merged(Merged(labels, b, LabelStep(Plus)), a, LabelStep(Plus))
  {
    var step := LabelStep(Plus);
    forall axis | axis in a && axis in b
      ensures step(step(At(labels, axis), a[axis]), b[axis]) == step(step(At(labels, axis), b[axis]), a[axis])
    {
      var held := At(labels, axis).GetOr(map[]);
      PairsCommute(held, a[axis], b[axis]);
      HeldStays(held, a[axis]);
      HeldStays(held, b[axis]);
    }
    MergeCommutes(labels, a, b, step);
  }

  lemma AddedCommutes(total: Totals, a: Totals, capA: Option<string>, b: Totals, capB: Option<string>)
    requires Canonical(total) && IsContribution(a) && IsContribution(b)
    ensures Added(Added(total, a, Plus, capA), b, Plus, capB) == Added(Added(total, b, Plus, capB), a, Plus, capA)
  {
    PairsCommute(total.figures, a.figures, b.figures);
    PairsCommute(total.tokens, a.tokens, b.tokens);
    PairsCommute(total.ttls, a.ttls, b.ttls);
    LabelsCommute(total.labels, a.labels, b.labels);
    CountsCommute(total.counts, a.counts, b.counts);
    CountsCommute(total.caps, CapCounts(capA), CapCounts(capB));
  }

  lemma CountsCommute(counts: map<string, int>, a: map<string, int>, b: map<string, int>)
    ensures Merged(Merged(counts, a, CountStep(Plus)), b, CountStep(Plus))
         == Merged(Merged(counts, b, CountStep(Plus)), a, CountStep(Plus))
  {
    MergeCommutes(counts, a, b, CountStep(Plus));
  }

  lemma CameCommutes(total: Totals, one: Entry, other: Entry)
    requires Canonical(total)
    ensures Came(Came(total, one), other) == Came(Came(total, other), one)
  {
    DeltaIsContribution(one.row);
    DeltaIsContribution(other.row);
    AddedCommutes(total, SummaryDelta(one.row), one.cap, SummaryDelta(other.row), other.cap);
  }

  lemma FoldOfLonger(entries: seq<Entry>, last: Entry)
    ensures Fold(entries + [last]) == Came(Fold(entries), last)
  {
    assert (entries + [last])[..|entries|] == entries;
  }

  /** Any one row of a fold may be thought of as having come last. */
  lemma {:induction false} FoldAsIfLast(before: seq<Entry>, entry: Entry, after: seq<Entry>)
    ensures Fold(before + [entry] + after) == Came(Fold(before + after), entry)
  {
    if after == [] {
      assert before + [entry] + after == before + [entry] && before + after == before;
      FoldOfLonger(before, entry);
    } else {
      var shorter, last := after[..|after| - 1], after[|after| - 1];
      assert before + [entry] + after == (before + [entry] + shorter) + [last];
      assert before + after == (before + shorter) + [last];
      FoldOfLonger(before + [entry] + shorter, last);
      FoldOfLonger(before + shorter, last);
      FoldAsIfLast(before, entry, shorter);
      FoldIsCanonical(before + shorter);
      CameCommutes(Fold(before + shorter), entry, last);
    }
  }

  // ---- runs ----

  /** One write of the store: a new row, a row replaced by its next revision, or a row removed. */
  datatype Change = Insert(next: Entry) | Replace(prior: Entry, next: Entry) | Remove(prior: Entry)

  /** The rows the bucket stands for after a run, or None when a run removes a row it does not hold. */
  ghost function Live(run: seq<Change>): Option<multiset<Entry>> {
    if run == [] then Some(multiset{})
    else match Live(run[..|run| - 1])
      case None => None
      case Some(rows) => LiveAfter(rows, run[|run| - 1])
  }

  function Applied(total: Totals, change: Change): Totals {
    match change
    case Insert(next) => Came(total, next)
    case Replace(prior, next) => Came(Went(total, prior), next)
    case Remove(prior) => Went(total, prior)
  }

  function Running(run: seq<Change>): Totals {
    if run == [] then EMPTY else Applied(Running(run[..|run| - 1]), run[|run| - 1])
  }

  lemma SplitAt(entries: seq<Entry>, entry: Entry) returns (before: seq<Entry>, after: seq<Entry>)
    requires entry in multiset(entries)
    ensures entries == before + [entry] + after
    ensures multiset(before + after) == multiset(entries) - multiset{entry}
  {
    var at :| 0 <= at < |entries| && entries[at] == entry;
    before, after := entries[..at], entries[at + 1..];
    assert entries == before + [entry] + after;
  }

  lemma LastTakenBack(entries: seq<Entry>, prior: Entry)
    ensures Went(Fold(entries + [prior]), prior) == Fold(entries)
  {
    FoldOfLonger(entries, prior);
    FoldIsCanonical(entries);
    WentUndoesCame(Fold(entries), prior);
  }

  ghost function LiveAfter(rows: multiset<Entry>, change: Change): Option<multiset<Entry>> {
    match change
    case Insert(next) => Some(rows + multiset{next})
    case Replace(prior, next) => if prior in rows then Some(rows - multiset{prior} + multiset{next}) else None
    case Remove(prior) => if prior in rows then Some(rows - multiset{prior}) else None
  }

  lemma BeforeArrival(rows: multiset<Entry>, next: Entry, entries: seq<Entry>) returns (earlier: seq<Entry>)
    requires multiset(entries) == rows + multiset{next}
    ensures multiset(earlier) == rows && Came(Fold(earlier), next) == Fold(entries)
  {
    var before, after := SplitAt(entries, next);
    earlier := before + after;
    FoldAsIfLast(before, next, after);
  }

  lemma BeforeRemoval(rows: multiset<Entry>, prior: Entry, entries: seq<Entry>) returns (earlier: seq<Entry>)
    requires prior in rows && multiset(entries) == rows - multiset{prior}
    ensures multiset(earlier) == rows && Went(Fold(earlier), prior) == Fold(entries)
  {
    earlier := entries + [prior];
    LastTakenBack(entries, prior);
  }

  /** One write, read backwards: the fold it started from. */
  lemma BeforeChange(rows: multiset<Entry>, change: Change, entries: seq<Entry>) returns (earlier: seq<Entry>)
    requires LiveAfter(rows, change) == Some(multiset(entries))
    ensures multiset(earlier) == rows
    ensures Applied(Fold(earlier), change) == Fold(entries)
  {
    match change
    case Insert(next) =>
      earlier := BeforeArrival(rows, next, entries);
    case Remove(prior) =>
      earlier := BeforeRemoval(rows, prior, entries);
    case Replace(prior, next) =>
      var between := BeforeArrival(rows - multiset{prior}, next, entries);
      earlier := BeforeRemoval(rows, prior, between);
  }

  /** After every run the bucket equals the fold over the live rows in any order, in every
      member: counts, flags, exact cash, presence pairs, nested labels and the cap multiset. */
  lemma {:induction false} RunningEqualsFold(run: seq<Change>, entries: seq<Entry>)
    requires Live(run) == Some(multiset(entries))
    ensures Running(run) == Fold(entries)
    decreases |run|
  {
    if run == [] {
      assert |multiset(entries)| == |entries|;
    } else {
      var shorter, change := run[..|run| - 1], run[|run| - 1];
      var earlier := BeforeChange(Live(shorter).value, change, entries);
      RunningEqualsFold(shorter, earlier);
    }
  }
}
