/** Every additive member of a running bucket is the sum of what its live rows contribute. */
module UsageSums {
  import opened Options
  import opened UsageMoney
  import opened UsageRows
  import opened UsageBucket
  import opened UsageReversal

  /** One number of a bucket; an entry that is absent counts as zero. */
  datatype Member =
    | Rows | SettledCash | ConfirmedCash | EstimatedCash | ReservedCash | UnresolvedCash
    | Unknown | Priced | TrackedNonfinal | AccountingOpen | NonFinal
    | Sessions | Physical
    | Count(state: string)
    | FigureSum(figure: Figure) | FigureRows(figure: Figure)
    | TokenSum(tokens: TokenAxis) | TokenRows(tokens: TokenAxis)
    | TtlSum(ttl: string) | TtlRows(ttl: string)
    | LabelSum(axis: LabelAxis, mode: string) | LabelRows(axis: LabelAxis, mode: string)

  function PairAt<K>(pairs: map<K, Pair>, key: K): Pair {
    if key in pairs then pairs[key] else Pair(0.0, 0)
  }

  function Value(total: Totals, member: Member): real {
    match member
    case Rows => total.rows as real
    case SettledCash => total.cash.settled
    case ConfirmedCash => total.cash.confirmed
    case EstimatedCash => total.cash.estimated
    case ReservedCash => total.cash.reserved
    case UnresolvedCash => total.cash.unresolved
    case Unknown => total.flags.unknown as real
    case Priced => total.flags.priced as real
    case TrackedNonfinal => total.flags.trackedNonfinal as real
    case AccountingOpen => total.flags.accountingOpen as real
    case NonFinal => total.flags.nonFinal as real
    case Sessions => total.sessions as real
    case Physical => total.physical as real
    case Count(state) => if state in total.counts then total.counts[state] as real else 0.0
    case FigureSum(figure) => PairAt(total.figures, figure).sum
    case FigureRows(figure) => PairAt(total.figures, figure).present as real
    case TokenSum(axis) => PairAt(total.tokens, axis).sum
    case TokenRows(axis) => PairAt(total.tokens, axis).present as real
    case TtlSum(ttl) => PairAt(total.ttls, ttl).sum
    case TtlRows(ttl) => PairAt(total.ttls, ttl).present as real
    case LabelSum(axis, mode) => PairAt(At(total.labels, axis).GetOr(map[]), mode).sum
    case LabelRows(axis, mode) => PairAt(At(total.labels, axis).GetOr(map[]), mode).present as real
  }

  lemma PairsAdd<K(!new)>(pairs: map<K, Pair>, addition: map<K, Pair>, key: K)
    requires Held(pairs) && ReportedOnce(addition)
    ensures var sum := PairAt(Merged(pairs, addition, PairStep(Plus)), key);
      && sum.sum == PairAt(pairs, key).sum + PairAt(addition, key).sum
      && sum.present == PairAt(pairs, key).present + PairAt(addition, key).present
  {
    MergedAt(pairs, addition, PairStep(Plus), key);
    if key in addition { PairUndone(At(pairs, key), addition[key]); }
  }

  lemma CountsAdd(counts: map<string, int>, addition: map<string, int>, key: string)
    ensures var sum := Merged(counts, addition, CountStep(Plus));
      (if key in sum then sum[key] else 0) ==
        (if key in counts then counts[key] else 0) + (if key in addition then addition[key] else 0)
  {
    MergedAt(counts, addition, CountStep(Plus), key);
  }

  lemma LabelsAdd(total: Totals, delta: Totals, axis: LabelAxis, mode: string)
    requires HeldLabels(total.labels) && ReportedLabels(delta.labels)
    ensures var sum := PairAt(At(Merged(total.labels, delta.labels, LabelStep(Plus)), axis).GetOr(map[]), mode);
      var before := PairAt(At(total.labels, axis).GetOr(map[]), mode);
      var part := PairAt(At(delta.labels, axis).GetOr(map[]), mode);
      sum.sum == before.sum + part.sum && sum.present == before.present + part.present
  {
    MergedAt(total.labels, delta.labels, LabelStep(Plus), axis);
    if axis in delta.labels {
      PairsAdd(At(total.labels, axis).GetOr(map[]), delta.labels[axis], mode);
    }
  }

  lemma AddedIsSum(total: Totals, delta: Totals, cap: Option<string>, member: Member)
    requires Canonical(total) && IsContribution(delta)
    ensures Value(Added(total, delta, Plus, cap), member) == Value(total, member) + Value(delta, member)
  {
    match member
    case LabelSum(axis, mode) => LabelsAdd(total, delta, axis, mode);
    case LabelRows(axis, mode) => LabelsAdd(total, delta, axis, mode);
    case _ => OthersAdd(total, delta, cap, member);
  }

  lemma OthersAdd(total: Totals, delta: Totals, cap: Option<string>, member: Member)
    requires Canonical(total) && IsContribution(delta) && !member.LabelSum? && !member.LabelRows?
    ensures Value(Added(total, delta, Plus, cap), member) == Value(total, member) + Value(delta, member)
  {
    match member
    case Count(state) => CountsAdd(total.counts, delta.counts, state);
    case FigureSum(figure) => PairsAdd(total.figures, delta.figures, figure);
    case FigureRows(figure) => PairsAdd(total.figures, delta.figures, figure);
    case TokenSum(axis) => PairsAdd(total.tokens, delta.tokens, axis);
    case TokenRows(axis) => PairsAdd(total.tokens, delta.tokens, axis);
    case TtlSum(ttl) => PairsAdd(total.ttls, delta.ttls, ttl);
    case TtlRows(ttl) => PairsAdd(total.ttls, delta.ttls, ttl);
    case _ =>
  }

  function SumOver(entries: seq<Entry>, member: Member): real {
    if entries == [] then 0.0
    else SumOver(entries[..|entries| - 1], member) + Value(SummaryDelta(entries[|entries| - 1].row), member)
  }

  ghost predicate FoldSums(entries: seq<Entry>, member: Member) {
    Value(Fold(entries), member) == SumOver(entries, member)
  }

  lemma CameIsSum(total: Totals, entry: Entry, member: Member, before: real)
    requires Canonical(total) && Value(total, member) == before
    ensures Value(Came(total, entry), member) == before + Value(SummaryDelta(entry.row), member)
  {
    DeltaIsContribution(entry.row);
    AddedIsSum(total, SummaryDelta(entry.row), entry.cap, member);
  }

  lemma SumOfLonger(entries: seq<Entry>, last: Entry, member: Member)
    ensures SumOver(entries + [last], member) == SumOver(entries, member) + Value(SummaryDelta(last.row), member)
  {
    assert (entries + [last])[..|entries|] == entries;
  }

  lemma OneMoreSums(earlier: seq<Entry>, last: Entry, member: Member)
    requires FoldSums(earlier, member)
    ensures FoldSums(earlier + [last], member)
  {
    FoldIsCanonical(earlier);
    CameIsSum(Fold(earlier), last, member, SumOver(earlier, member));
    FoldOfLonger(earlier, last);
    SumOfLonger(earlier, last, member);
  }

  lemma NothingSums(member: Member)
    ensures FoldSums([], member)
  {
  }

  lemma {:induction false} FoldIsSum(entries: seq<Entry>, member: Member)
    ensures FoldSums(entries, member)
  {
    if entries == [] {
      NothingSums(member);
    } else {
      FoldIsSum(entries[..|entries| - 1], member);
      OneMoreSums(entries[..|entries| - 1], entries[|entries| - 1], member);
      assert entries == entries[..|entries| - 1] + [entries[|entries| - 1]];
    }
  }

  /** After every run of the store each member is the sum over the live rows, in any order. */
  lemma RunningIsSum(run: seq<Change>, entries: seq<Entry>, member: Member)
    requires Live(run) == Some(multiset(entries))
    ensures Value(Running(run), member) == SumOver(entries, member)
  {
    RunningEqualsFold(run, entries);
    FoldIsSum(entries, member);
  }

  // ---- the spend that a limit sees ----

  /** The known cost of a settled row. */
  function KnownCost(row: CashRow): real {
    if row.state.Settled? && !row.kind.Baseline? && !row.kind.LegacyMetadata? && row.cost.Some? && row.cost.value >= 0.0
    then row.cost.value else 0.0
  }

  function KnownCosts(entries: seq<Entry>): real {
    if entries == [] then 0.0
    else KnownCosts(entries[..|entries| - 1]) + KnownCost(entries[|entries| - 1].row.money)
  }

  lemma {:induction false} SettledIsKnown(entries: seq<Entry>)
    ensures SumOver(entries, SettledCash) == KnownCosts(entries)
  {
    if entries != [] {
      SettledIsKnown(entries[..|entries| - 1]);
      MoneyIsWhereItsStateSays(entries[|entries| - 1].row.money);
    }
  }

  /** A bucket's settled spend is the sum of the known costs of its live settled rows, so a limit
      refuses as soon as that sum, rounded, reaches it. */
  lemma SettledSpendIsKnownCost(run: seq<Change>, entries: seq<Entry>, micros: int)
    requires Live(run) == Some(multiset(entries)) && micros > 0
    ensures Running(run).cash.settled == KnownCosts(entries)
    ensures ExceedsLimit(Running(run).cash, micros as real / MICRO) <==> Micros(KnownCosts(entries)) >= micros
  {
    RunningIsSum(run, entries, SettledCash);
    SettledIsKnown(entries);
    WholeLimit(Running(run).cash, micros);
  }
}
