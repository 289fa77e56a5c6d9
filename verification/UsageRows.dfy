/** One ledger row's contribution to every running summary. */
module UsageRows {
  import opened Options
  import opened UsageMoney

  /** A sum and how many rows reported it. */
  datatype Pair = Pair(sum: real, present: int)

  datatype Figure = Valuation | Unclassified | UnknownCashRows | UnknownValuationRows
  datatype LabelAxis = ObservedModes | BillingKinds
  datatype TokenAxis = Prompt | Completion | Cached | CacheWrite

  /** The finality counters of a set of rows. */
  datatype Flags = Flags(unknown: int, priced: int, trackedNonfinal: int, accountingOpen: int, nonFinal: int)

  /** A summary's additive members. */
  datatype Totals = Totals(
    rows: int,
    cash: Cash,
    counts: map<string, int>,
    flags: Flags,
    sessions: int,
    physical: int,
    figures: map<Figure, Pair>,
    labels: map<LabelAxis, map<string, Pair>>,
    tokens: map<TokenAxis, Pair>,
    ttls: map<string, Pair>,
    caps: map<string, int>)

  const NO_FLAGS := Flags(0, 0, 0, 0, 0)
  const EMPTY := Totals(0, ZERO_CASH, map[], NO_FLAGS, 0, 0, map[], map[], map[], map[], map[])

  // ---- processing evidence ----

  /** Evidence of one send, or of an imported summary. */
  datatype Facts = Facts(figures: map<Figure, real>, labels: map<LabelAxis, map<string, int>>)

  datatype EntryCost = EntryCost(
    cashKnown: bool, cash: Option<real>, valuationKnown: bool, valuation: Option<real>, unclassified: Option<real>)

  datatype ProcessingEntry = ProcessingEntry(observed: string, billingKind: string, cost: Option<EntryCost>)

  datatype Processing = Imported(summary: Facts) | Entries(entries: seq<ProcessingEntry>)

  /** A negative amount is no evidence; a counter always is. */
  predicate Usable(figure: Figure, value: real) {
    figure.UnknownCashRows? || figure.UnknownValuationRows? || value >= 0.0
  }

  function FigureAt(figures: map<Figure, real>, figure: Figure): real {
    if figure in figures then figures[figure] else 0.0
  }

  function MergeLabels(total: map<string, int>, addition: map<string, int>): map<string, int> {
    map mode | mode in total.Keys + addition.Keys ::
      (if mode in total then total[mode] else 0) + (if mode in addition then addition[mode] else 0)
  }

  function LabelCounts(labels: map<LabelAxis, map<string, int>>, axis: LabelAxis): map<string, int> {
    if axis in labels then labels[axis] else map[]
  }

  function MergeFacts(total: Facts, addition: Facts): Facts {
    var usable := map figure | figure in addition.figures && Usable(figure, addition.figures[figure]) ::
      addition.figures[figure];
    Facts(
      map figure | figure in total.figures.Keys + usable.Keys ::
        FigureAt(total.figures, figure) + FigureAt(usable, figure),
      map axis | axis in total.labels.Keys + addition.labels.Keys &&
          (axis in total.labels || LabelCounts(addition.labels, axis) != map[]) ::
        MergeLabels(LabelCounts(total.labels, axis), LabelCounts(addition.labels, axis)))
  }

  function EntryFacts(entry: ProcessingEntry): Facts {
    var labels: map<LabelAxis, map<string, int>> :=
      (if entry.observed != "" then map[ObservedModes := map[entry.observed := 1]] else map[]) +
      (if entry.billingKind != "" then map[BillingKinds := map[entry.billingKind := 1]] else map[]);
    match entry.cost
    case None => Facts(map[], labels)
    case Some(cost) =>
      var valued := cost.valuationKnown && cost.valuation.Some?;
      Facts(
        map[UnknownCashRows := if cost.cashKnown && cost.cash.Some? then 0.0 else 1.0,
            UnknownValuationRows := if valued then 0.0 else 1.0] +
        (if valued then map[Valuation := cost.valuation.value] else map[]) +
        (if cost.unclassified.Some? then map[Unclassified := cost.unclassified.value] else map[]),
        labels)
  }

  function EntriesFacts(entries: seq<ProcessingEntry>): Facts {
    if entries == [] then Facts(map[], map[])
    else MergeFacts(EntriesFacts(entries[..|entries| - 1]), EntryFacts(entries[|entries| - 1]))
  }

  function ProcessingFacts(processing: Processing): Facts {
    match processing
    case Imported(summary) => MergeFacts(Facts(map[], map[]), summary)
    case Entries(entries) => EntriesFacts(entries)
  }

  /** One row's evidence, each item reported once. */
  function ProcessingFigures(facts: Facts): map<Figure, Pair> {
    map figure | figure in facts.figures :: Pair(facts.figures[figure], 1)
  }

  function LabelPairs(counts: map<string, int>): map<string, Pair> {
    map mode | mode in counts :: Pair(counts[mode] as real, 1)
  }

  function ProcessingLabels(facts: Facts): map<LabelAxis, map<string, Pair>> {
    map axis | axis in facts.labels && facts.labels[axis] != map[] :: LabelPairs(facts.labels[axis])
  }

  // ---- rows ----

  datatype Row = Row(
    money: CashRow,
    pricingKnownFalse: bool,
    foldedAttempts: int,
    ambiguousCalls: int,
    cacheTtl: string,
    tokens: map<TokenAxis, int>,
    processing: Processing,
    route: string,
    resetAt: string)

  function AtLeastOne(n: int): int {
    if n > 1 then n else 1
  }

  function StateName(state: RowState): string {
    match state
    case Reserved => "reserved"
    case Dispatched => "dispatched"
    case Unresolved => "unresolved"
    case Settled => "settled"
    case OtherState(name) => name
  }

  function PhysicalCalls(row: Row): int {
    match row.money.kind
    case OtherKind => if row.money.state in {Dispatched, Settled, Unresolved} then 1 else 0
    case BaselineGroup => if row.money.state in {Settled, Unresolved} then AtLeastOne(row.foldedAttempts) else 0
    case _ => 0
  }

  /** An aggregate row counts for every row folded into it. */
  function Weight(row: Row): (weight: int)
    ensures weight >= 1
  {
    if row.money.kind.BaselineGroup? then AtLeastOne(row.foldedAttempts) else 1
  }

  function SettledFlags(row: Row): Flags {
    var weight := Weight(row);
    if Amount(row.money.cost).None? then
      if Amount(row.money.bound).Some? then Flags(weight, weight, weight, weight, weight)
      else Flags(weight, 0, 0, 0, weight)
    else if row.money.costPartial then
      Flags(weight, weight, if row.money.costEstimated == Some(true) then weight else 0, weight, weight)
    else if row.money.costFinal then Flags(0, weight, 0, 0, 0)
    else Flags(0, weight, weight, weight, weight)
  }

  function OpenFlags(row: Row): Flags {
    var weight := Weight(row);
    var bounded := if Amount(row.money.bound).Some? then weight else 0;
    Flags(if bounded == 0 || row.pricingKnownFalse then weight else 0, bounded, bounded, weight, weight)
  }

  function RowFlags(row: Row): Flags {
    if row.money.kind.Baseline? || row.money.kind.LegacyMetadata? then NO_FLAGS
    else match row.money.state
      case Settled => SettledFlags(row)
      case OtherState(_) => NO_FLAGS
      case _ => OpenFlags(row)
  }

  function RowCounts(row: Row): map<string, int> {
    match row.money.kind
    case Baseline => map[]
    case LegacyMetadata => map["metadata_only" := AtLeastOne(row.ambiguousCalls)]
    case _ => map[StateName(row.money.state) := Weight(row)]
  }

  function RowWindows(row: Row): map<string, string> {
    if row.money.kind.SubscriptionSession? && row.route != "" && row.resetAt != "" then map[row.route := row.resetAt]
    else map[]
  }

  function SummaryDelta(row: Row): Totals {
    var facts := ProcessingFacts(row.processing);
    var physical := PhysicalCalls(row);
    Totals(
      1,
      CashContribution(row.money),
      RowCounts(row),
      RowFlags(row),
      if row.money.kind.SubscriptionSession? then 1 else 0,
      physical,
      ProcessingFigures(facts),
      ProcessingLabels(facts),
      map axis | axis in row.tokens :: Pair((if row.tokens[axis] > 0 then row.tokens[axis] else 0) as real, 1),
      if row.cacheTtl != "" then map[row.cacheTtl := Pair(physical as real, 1)] else map[],
      map[])
  }

  /** A row whose price is not yet final. */
  predicate IsOpen(row: Row) {
    && !row.money.kind.Baseline? && !row.money.kind.LegacyMetadata?
    && (row.money.state in {Reserved, Dispatched, Unresolved} ||
        (row.money.state.Settled? && (Amount(row.money.cost).None? || !row.money.costFinal || row.money.costPartial)))
  }

  ghost predicate ReportedOnce<K(!new)>(pairs: map<K, Pair>) {
    forall key :: key in pairs ==> pairs[key].present == 1
  }

  ghost predicate ReportedLabels(labels: map<LabelAxis, map<string, Pair>>) {
    forall axis :: axis in labels ==> labels[axis] != map[] && ReportedOnce(labels[axis])
  }

  /** What every contribution looks like: each pair reported once, each count positive, no
      empty mode map, no cap of its own. */
  ghost predicate IsContribution(delta: Totals) {
    && (forall key :: key in delta.counts ==> delta.counts[key] > 0)
    && ReportedOnce(delta.figures) && ReportedOnce(delta.tokens) && ReportedOnce(delta.ttls)
    && ReportedLabels(delta.labels)
    && delta.caps == map[]
  }

  lemma DeltaIsContribution(row: Row)
    ensures IsContribution(SummaryDelta(row))
  {
    var facts := ProcessingFacts(row.processing);
    forall axis | axis in facts.labels && facts.labels[axis] != map[]
      ensures LabelPairs(facts.labels[axis]) != map[]
    {
      var mode :| mode in facts.labels[axis];
      assert mode in LabelPairs(facts.labels[axis]);
    }
  }

  /** What is unpriced or tracked is open, and a row is non-final exactly when it is open. */
  lemma DeltaFlags(row: Row)
    ensures var f := SummaryDelta(row).flags;
      && 0 <= f.unknown <= f.nonFinal
      && 0 <= f.trackedNonfinal <= f.accountingOpen <= f.nonFinal
      && f.trackedNonfinal <= f.priced
      && (f.nonFinal > 0 <==> IsOpen(row))
  {
  }

  // ---- what one row adds ----

  /** The counters of a row: its weight under its state's name; the header none, imported metadata
      its ambiguous calls. Only a session row counts as a session. */
  lemma CountersOfRow(row: Row)
    ensures var d, kind := SummaryDelta(row), row.money.kind;
      && d.rows == 1 && d.sessions == (if kind.SubscriptionSession? then 1 else 0)
      && (kind.Baseline? ==> d.counts == map[])
      && (kind.LegacyMetadata? ==>
            d.counts == map["metadata_only" := if row.ambiguousCalls > 1 then row.ambiguousCalls else 1])
      && (!kind.Baseline? && !kind.LegacyMetadata? ==> d.counts == map[StateName(row.money.state) := Weight(row)])
    ensures Weight(row) == if row.money.kind.BaselineGroup? && row.foldedAttempts > 1 then row.foldedAttempts else 1
  {
  }

  /** A send counts once it has been dispatched; an imported group counts for its attempts once
      they are final; nothing else is a physical call. */
  lemma PhysicalCallsOfRow(row: Row)
    ensures SummaryDelta(row).physical ==
      if row.money.kind.OtherKind? && row.money.state in {Dispatched, Settled, Unresolved} then 1
      else if row.money.kind.BaselineGroup? && row.money.state in {Settled, Unresolved} then Weight(row)
      else 0
  {
  }

  /** The finality of a row, in its weight: unknown when its cost is missing or partial, or, while
      open, when it has no bound or its price is said to be unknown; priced when it has a cost or
      a bound; tracked when it is open, priced, and not an exact subtotal. */
  lemma FinalityOfRow(row: Row)
    ensures var f, m := SummaryDelta(row).flags, row.money;
      var counted := !m.kind.Baseline? && !m.kind.LegacyMetadata?;
      var known, bounded := Amount(m.cost).Some?, Amount(m.bound).Some?;
      var pending := counted && m.state in {Reserved, Dispatched, Unresolved};
      var settled := counted && m.state.Settled?;
      var weight := Weight(row);
      && f.nonFinal == (if IsOpen(row) then weight else 0)
      && f.unknown == (if (settled && (!known || m.costPartial)) || (pending && (!bounded || row.pricingKnownFalse))
                       then weight else 0)
      && f.priced == (if (settled && (known || bounded)) || (pending && bounded) then weight else 0)
      && f.accountingOpen == (if pending || (settled && (if known then IsOpen(row) else bounded)) then weight else 0)
      && f.trackedNonfinal ==
           (if (pending && bounded) || (settled && !known && bounded)
               || (settled && known && IsOpen(row) && (m.costPartial ==> m.costEstimated == Some(true)))
            then weight else 0)
  {
  }

  /** Tokens count as reported, never below zero; the cache lifetime carries the physical calls. */
  lemma TokensOfRow(row: Row, axis: TokenAxis, ttl: string)
    ensures var d := SummaryDelta(row);
      && (axis in d.tokens <==> axis in row.tokens)
      && (axis in row.tokens ==>
            d.tokens[axis] == Pair((if row.tokens[axis] > 0 then row.tokens[axis] else 0) as real, 1))
      && (ttl in d.ttls <==> ttl != "" && ttl == row.cacheTtl)
      && (ttl in d.ttls ==> d.ttls[ttl] == Pair(SummaryDelta(row).physical as real, 1))
  {
  }

  /** A row names a reset for a route exactly when it is a session row with both. */
  lemma WindowsOfRow(row: Row, route: string)
    ensures route in RowWindows(row) <==>
      row.money.kind.SubscriptionSession? && route != "" && route == row.route && row.resetAt != ""
    ensures route in RowWindows(row) ==> RowWindows(row)[route] == row.resetAt
  {
  }

  // ---- what one row discloses ----

  /** What an entry says of a figure, if anything: amounts only when known and not negative, the
      two counters whenever it carries a cost. */
  function Says(entry: ProcessingEntry, figure: Figure): Option<real> {
    if entry.cost.None? then None
    else
      var cost := entry.cost.value;
      match figure
      case Valuation => if cost.valuationKnown then Amount(cost.valuation) else None
      case Unclassified => Amount(cost.unclassified)
      case UnknownCashRows => Some(if cost.cashKnown && cost.cash.Some? then 0.0 else 1.0)
      case UnknownValuationRows => Some(if cost.valuationKnown && cost.valuation.Some? then 0.0 else 1.0)
  }

  function SaidSum(entries: seq<ProcessingEntry>, figure: Figure): real {
    if entries == [] then 0.0
    else SaidSum(entries[..|entries| - 1], figure) + Says(entries[|entries| - 1], figure).GetOr(0.0)
  }

  function LabelOf(entry: ProcessingEntry, axis: LabelAxis): string {
    if axis.ObservedModes? then entry.observed else entry.billingKind
  }

  function LabelSum(entries: seq<ProcessingEntry>, axis: LabelAxis, mode: string): int {
    if entries == [] then 0
    else
      var named := LabelOf(entries[|entries| - 1], axis) == mode;
      LabelSum(entries[..|entries| - 1], axis, mode) + (if named then 1 else 0)
  }

  /** The usable part of one figure of some evidence. */
  function UsableAt(facts: Facts, figure: Figure): Option<real> {
    if figure in facts.figures && Usable(figure, facts.figures[figure]) then Some(facts.figures[figure]) else None
  }

  lemma MergedFigure(total: Facts, addition: Facts, figure: Figure)
    ensures var merged := MergeFacts(total, addition).figures;
      && (figure in merged <==> figure in total.figures || UsableAt(addition, figure).Some?)
      && FigureAt(merged, figure) == FigureAt(total.figures, figure) + UsableAt(addition, figure).GetOr(0.0)
  {
  }

  lemma EntrySays(entry: ProcessingEntry, figure: Figure)
    ensures UsableAt(EntryFacts(entry), figure) == Says(entry, figure)
  {
    match figure
    case Valuation =>
    case Unclassified =>
    case UnknownCashRows =>
    case UnknownValuationRows =>
  }

  /** A figure of a row is disclosed exactly when one of its entries says it, as the sum of what
      they say: an absent amount is no measured zero. */
  lemma {:induction false} FiguresOfEntries(entries: seq<ProcessingEntry>, figure: Figure)
    ensures var figures := EntriesFacts(entries).figures;
      && (figure in figures <==> exists e :: e in entries && Says(e, figure).Some?)
      && FigureAt(figures, figure) == SaidSum(entries, figure)
  {
    if entries != [] {
      var earlier, last := entries[..|entries| - 1], entries[|entries| - 1];
      FiguresOfEntries(earlier, figure);
      EntrySays(last, figure);
      MergedFigure(EntriesFacts(earlier), EntryFacts(last), figure);
      assert entries == earlier + [last];
    }
  }

  function LabelAt(facts: Facts, axis: LabelAxis, mode: string): int {
    var counts := LabelCounts(facts.labels, axis);
    if mode in counts then counts[mode] else 0
  }

  lemma MergedLabel(total: Facts, addition: Facts, axis: LabelAxis, mode: string)
    ensures LabelAt(MergeFacts(total, addition), axis, mode) ==
      LabelAt(total, axis, mode) + LabelAt(addition, axis, mode)
  {
  }

  lemma EntryNames(entry: ProcessingEntry, axis: LabelAxis, mode: string)
    requires mode != ""
    ensures LabelAt(EntryFacts(entry), axis, mode) == if LabelOf(entry, axis) == mode then 1 else 0
  {
  }

  /** Each mode and each billing kind is counted once for every entry that names it. */
  lemma {:induction false} LabelsOfEntries(entries: seq<ProcessingEntry>, axis: LabelAxis, mode: string)
    requires mode != ""
    ensures LabelAt(EntriesFacts(entries), axis, mode) == LabelSum(entries, axis, mode)
  {
    if entries != [] {
      LabelsOfEntries(entries[..|entries| - 1], axis, mode);
      EntryNames(entries[|entries| - 1], axis, mode);
      MergedLabel(EntriesFacts(entries[..|entries| - 1]), EntryFacts(entries[|entries| - 1]), axis, mode);
    }
  }

  /** An imported summary discloses its usable figures and its labels as they are. */
  lemma ImportedDiscloses(summary: Facts, figure: Figure, axis: LabelAxis, mode: string)
    ensures var facts := ProcessingFacts(Imported(summary));
      && (figure in facts.figures <==> UsableAt(summary, figure).Some?)
      && FigureAt(facts.figures, figure) == UsableAt(summary, figure).GetOr(0.0)
      && LabelAt(facts, axis, mode) == LabelAt(summary, axis, mode)
  {
    MergedFigure(Facts(map[], map[]), summary, figure);
    MergedLabel(Facts(map[], map[]), summary, axis, mode);
  }

  /** A row discloses each figure and each mode of its evidence, reported once. */
  lemma DisclosureOfRow(row: Row, figure: Figure, axis: LabelAxis, mode: string)
    ensures var d, facts := SummaryDelta(row), ProcessingFacts(row.processing);
      && (figure in d.figures <==> figure in facts.figures)
      && (figure in d.figures ==> d.figures[figure] == Pair(facts.figures[figure], 1))
      && ((axis in d.labels && mode in d.labels[axis]) <==> (axis in facts.labels && mode in facts.labels[axis]))
      && (axis in d.labels && mode in d.labels[axis] ==>
            d.labels[axis][mode] == Pair(facts.labels[axis][mode] as real, 1))
  {
  }
}
