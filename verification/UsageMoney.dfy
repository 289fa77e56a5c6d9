/** Cash arithmetic: contributions of rows, exact accumulation, the one rounding, the limit.

    A decimal amount is an exact `real`; the accumulators of the source trap any inexact
    sum, so an addition that returns is exact. */
module UsageMoney {
  import opened Options

  datatype Cash = Cash(settled: real, confirmed: real, estimated: real, reserved: real, unresolved: real)

  const ZERO_CASH := Cash(0.0, 0.0, 0.0, 0.0, 0.0)

  datatype RowKind =
    | Baseline | BaselineGroup | LegacyMetadata | LegacyDelta | SubscriptionSession | OtherKind

  /** A row's state; `OtherState` is any text but the four names. */
  datatype RowState = Reserved | Dispatched | Unresolved | Settled | OtherState(name: string)

  /** What the cash rules read from a ledger row. */
  datatype CashRow = CashRow(
    kind: RowKind,
    state: RowState,
    cost: Option<real>,
    bound: Option<real>,
    costFinal: bool,
    costPartial: bool,
    costEstimated: Option<bool>)

  /** A recorded amount; a negative one is unknown. */
  function Amount(value: Option<real>): Option<real> {
    if value.Some? && value.value < 0.0 then None else value
  }

  function CashContribution(row: CashRow): Cash {
    if row.kind.Baseline? || row.kind.LegacyMetadata? then ZERO_CASH
    else
      var cost := Amount(row.cost);
      var bound := Amount(row.bound).GetOr(0.0);
      match row.state
      case Settled =>
        if cost.None? then Cash(0.0, 0.0, 0.0, 0.0, bound)
        else if Exact(row) then
          Cash(cost.value, cost.value, 0.0, 0.0, 0.0)
        else
          Cash(cost.value, 0.0, cost.value, 0.0, 0.0)
      case Reserved => Cash(0.0, 0.0, 0.0, bound, 0.0)
      case Dispatched => Cash(0.0, 0.0, 0.0, 0.0, bound)
      case Unresolved => Cash(0.0, 0.0, 0.0, 0.0, bound)
      case OtherState(_) => ZERO_CASH
  }

  /** A contribution comes (sign 1) or goes (sign -1). */
  datatype Sign = Plus | Minus {
    function Count(n: int): int {
      if Plus? then n else -n
    }

    function Amount(x: real): real {
      if Plus? then x else -x
    }
  }

  function AddCash(total: Cash, sign: Sign, part: Cash): Cash {
    Cash(total.settled + sign.Amount(part.settled), total.confirmed + sign.Amount(part.confirmed),
         total.estimated + sign.Amount(part.estimated), total.reserved + sign.Amount(part.reserved),
         total.unresolved + sign.Amount(part.unresolved))
  }

  /** The amount a row exposes: its known cost once settled, before that its upper bound. */
  function Exposure(row: CashRow): real {
    if row.kind.Baseline? || row.kind.LegacyMetadata? || row.state.OtherState? then 0.0
    else if row.state.Settled? && Amount(row.cost).Some? then row.cost.value
    else Amount(row.bound).GetOr(0.0)
  }

  predicate Exact(row: CashRow) {
    row.costFinal || (row.costPartial && row.costEstimated == Some(false))
  }

  /** Every contribution is non-negative, splits its settled part exactly, and puts the whole
      exposure of its row in the one place its state names. */
  lemma ContributionIsBalanced(row: CashRow)
    ensures var c := CashContribution(row);
      && c.settled == c.confirmed + c.estimated
      && c.confirmed >= 0.0 && c.estimated >= 0.0 && c.reserved >= 0.0 && c.unresolved >= 0.0
      && (c.settled > 0.0 ==> c.reserved == c.unresolved == 0.0)
      && (c.reserved > 0.0 ==> c.settled == c.unresolved == 0.0)
      && c.settled + c.reserved + c.unresolved == Exposure(row)
      && (c.reserved > 0.0 ==> row.state.Reserved?) && (c.unresolved > 0.0 ==> !row.state.Reserved?)
      && (c.settled > 0.0 ==> row.state.Settled?)
      && (c.confirmed > 0.0 ==> Exact(row)) && (c.estimated > 0.0 ==> !Exact(row))
  {
  }

  /** Where a row's money is. A settled row with a known cost is settled spend of exactly that
      cost, confirmed when its price is final or its subtotal is declared exact, else estimated;
      a reserved row is reserved at its bound; every other row without a known cost is unresolved
      at its bound. Rows that only describe others, and rows of an unknown state, hold nothing. */
  lemma MoneyIsWhereItsStateSays(row: CashRow)
    ensures var c := CashContribution(row);
      var known := row.cost.Some? && row.cost.value >= 0.0;
      var bound := if row.bound.Some? && row.bound.value >= 0.0 then row.bound.value else 0.0;
      var settles := row.state.Settled? && known && !row.kind.Baseline? && !row.kind.LegacyMetadata?;
      var exact := row.costFinal || (row.costPartial && row.costEstimated == Some(false));
      && c.settled == (if settles then row.cost.value else 0.0)
      && c.confirmed == (if settles && exact then row.cost.value else 0.0)
      && c.estimated == (if settles && !exact then row.cost.value else 0.0)
      && c.reserved == (if row.state.Reserved? && !row.kind.Baseline? && !row.kind.LegacyMetadata? then bound else 0.0)
      && c.unresolved ==
           (if (row.state.Dispatched? || row.state.Unresolved? || (row.state.Settled? && !known))
               && !row.kind.Baseline? && !row.kind.LegacyMetadata? then bound else 0.0)
  {
  }

  // ---- rounding to whole micro-dollars, half to even ----

  const MICRO := 1000000.0

  /** The whole number nearest to `x`, the even one when two are equally near. */
  function RoundHalfEven(x: real): (n: int)
    ensures -0.5 <= x - n as real <= 0.5
    ensures (x - n as real == 0.5 || x - n as real == -0.5) ==> n % 2 == 0
  {
    var low := x.Floor;
    var rest := x - low as real;
    if rest < 0.5 || (rest == 0.5 && low % 2 == 0) then low else low + 1
  }

  /** Those two conditions leave one whole number. */
  lemma RoundHalfEvenIsUnique(x: real, n: int)
    requires -0.5 <= x - n as real <= 0.5
    requires (x - n as real == 0.5 || x - n as real == -0.5) ==> n % 2 == 0
    ensures n == RoundHalfEven(x)
  {
    var m := RoundHalfEven(x);
    assert -1.0 <= (n - m) as real <= 1.0;
  }

  /** An amount in whole micro-dollars. */
  function Micros(amount: real): int {
    RoundHalfEven(amount * MICRO)
  }

  function Rounded(amount: real): real {
    Micros(amount) as real / MICRO
  }

  datatype Rendered = Rendered(cash: Cash, accounted: real)

  /** Each bucket rounded, then the exposure summed from the rounded buckets. */
  function RoundedCash(total: Cash): Rendered {
    var cash := Cash(Rounded(total.settled), Rounded(total.confirmed), Rounded(total.estimated),
                     Rounded(total.reserved), Rounded(total.unresolved));
    Rendered(cash, cash.settled + cash.reserved + cash.unresolved)
  }

  ghost predicate Within(a: real, b: real, micros: real) {
    -micros <= (a - b) * MICRO <= micros
  }

  lemma RoundedIsClose(amount: real)
    ensures Within(Rounded(amount), amount, 0.5)
  {
    var n := Micros(amount);
    assert Rounded(amount) * MICRO == n as real;
  }

  /** Every shown amount is within half a micro-dollar of the exact one, the shown exposure
      within one and a half. */
  lemma RenderingErrorBounds(total: Cash)
    ensures var shown := RoundedCash(total);
      && Within(shown.cash.settled, total.settled, 0.5)
      && Within(shown.cash.confirmed, total.confirmed, 0.5)
      && Within(shown.cash.estimated, total.estimated, 0.5)
      && Within(shown.cash.reserved, total.reserved, 0.5)
      && Within(shown.cash.unresolved, total.unresolved, 0.5)
      && Within(shown.accounted, total.settled + total.reserved + total.unresolved, 1.5)
      && shown.accounted == shown.cash.settled + shown.cash.reserved + shown.cash.unresolved
  {
    RoundedIsClose(total.settled);
    RoundedIsClose(total.confirmed);
    RoundedIsClose(total.estimated);
    RoundedIsClose(total.reserved);
    RoundedIsClose(total.unresolved);
  }

  /** The exposure bound is reached: three amounts of a half micro-dollar, all rounded to zero. */
  lemma AccountedBoundIsTight()
    ensures var half := 0.5 / MICRO;
      var total := Cash(half, half, 0.0, half, half);
      (RoundedCash(total).accounted - (total.settled + total.reserved + total.unresolved)) * MICRO == -1.5
  {
    var half := 0.5 / MICRO;
    assert half * MICRO == 0.5;
    RoundHalfEvenIsUnique(0.5, 0);
    assert Micros(half) == 0;
  }

  lemma MicrosMonotone(a: real, b: real)
    requires a <= b
    ensures Micros(a) <= Micros(b)
  {
    var x, y := a * MICRO, b * MICRO;
    assert x <= y;
    assert x.Floor <= y.Floor;
  }

  // ---- the spending limit ----

  const ALLOWANCE := 0.000000001

  predicate ExceedsLimit(total: Cash, limit: real) {
    limit <= 0.0 || RoundedCash(total).cash.settled >= limit - ALLOWANCE
  }

  /** The first whole micro-dollar the rounded spend must reach. */
  function FirstRefused(limit: real): (m: int)
    ensures m as real >= (limit - ALLOWANCE) * MICRO
    ensures (m - 1) as real < (limit - ALLOWANCE) * MICRO
  {
    -(-(limit - ALLOWANCE) * MICRO).Floor
  }

  /** The exact spend at which a positive limit refuses: half a micro-dollar below a whole
      one, and at that very half only when the whole one is even. */
  lemma LimitThreshold(total: Cash, limit: real)
    requires limit > 0.0
    ensures var m := FirstRefused(limit);
      ExceedsLimit(total, limit) <==>
        (total.settled * MICRO > m as real - 0.5 || (total.settled * MICRO == m as real - 0.5 && m % 2 == 0))
  {
    var m, n := FirstRefused(limit), Micros(total.settled);
    var bar := (limit - ALLOWANCE) * MICRO;
    assert Rounded(total.settled) * MICRO == n as real;
    assert Rounded(total.settled) >= limit - ALLOWANCE <==> n as real >= bar;
    assert n as real >= bar <==> n >= m;
  }

  /** Known spend may pass a positive limit by less than half a micro-dollar before it is
      refused, and is never refused more than that (and the allowance) below it. */
  lemma OvershootBound(total: Cash, limit: real)
    requires limit > 0.0
    ensures !ExceedsLimit(total, limit) ==> (total.settled - limit) * MICRO < 0.5
    ensures ExceedsLimit(total, limit) ==> (limit - total.settled) * MICRO <= 0.5 + ALLOWANCE * MICRO
  {
    RoundedIsClose(total.settled);
  }

  /** A limit of zero or less refuses everything. */
  lemma NoLimitNoSpend(total: Cash, limit: real)
    requires limit <= 0.0
    ensures ExceedsLimit(total, limit)
  {
  }

  /** More spend never lifts a refusal. */
  lemma LimitIsMonotone(total: Cash, more: Cash, limit: real)
    requires total.settled <= more.settled && ExceedsLimit(total, limit)
    ensures ExceedsLimit(more, limit)
  {
    if limit > 0.0 {
      MicrosMonotone(total.settled, more.settled);
      assert Rounded(total.settled) * MICRO <= Rounded(more.settled) * MICRO;
    }
  }

  /** For a limit of whole micro-dollars the allowance changes nothing: refusal is reaching
      the limit in rounded spend. */
  lemma WholeLimit(total: Cash, micros: int)
    requires micros > 0
    ensures ExceedsLimit(total, micros as real / MICRO) <==> Micros(total.settled) >= micros
  {
    var limit := micros as real / MICRO;
    var n := Micros(total.settled);
    assert limit * MICRO == micros as real;
    assert (limit - ALLOWANCE) * MICRO == micros as real - 0.001;
    assert Rounded(total.settled) * MICRO == n as real;
    assert Rounded(total.settled) >= limit - ALLOWANCE <==> n as real >= micros as real - 0.001;
    if n as real >= micros as real - 0.001 {
      assert (n - micros) as real >= -0.001;
    }
  }
}
