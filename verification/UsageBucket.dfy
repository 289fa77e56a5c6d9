/** The running money summary and its two steps: a contribution comes, a contribution goes. */
module UsageBucket {
  import opened Options
  import opened TextOrder
  import opened UsageMoney
  import opened UsageRows

  // ---- keyed accumulation: an entry whose step returns None leaves the map ----

  function At<K, V>(entries: map<K, V>, key: K): Option<V> {
    if key in entries then Some(entries[key]) else None
  }

  /** The entries after the steps of the keys in `done` were taken. */
  function MergedOver<K, V, W>(
      target: map<K, V>, addition: map<K, W>, done: set<K>, step: (Option<V>, W) -> Option<V>): map<K, V>
    requires done <= addition.Keys
  {
    map key | key in target.Keys + done && (key in done ==> step(At(target, key), addition[key]).Some?) ::
      if key in done then step(At(target, key), addition[key]).value else target[key]
  }

  function Merged<K, V, W>(target: map<K, V>, addition: map<K, W>, step: (Option<V>, W) -> Option<V>): map<K, V> {
    MergedOver(target, addition, addition.Keys, step)
  }

  method Merge<K(==), V, W>(target: map<K, V>, addition: map<K, W>, step: (Option<V>, W) -> Option<V>)
      returns (result: map<K, V>)
    ensures result == Merged(target, addition, step)
  {
    result := target;
    var done := {};
    while addition.Keys - done != {}
      invariant done <= addition.Keys
      invariant result == MergedOver(target, addition, done, step)
      decreases addition.Keys - done
    {
      var key :| key in addition.Keys - done;
      MergedOverGrows(target, addition, done, key, step);
      var updated := step(At(result, key), addition[key]);
      result := if updated.Some? then result[key := updated.value] else result - {key};
      done := done + {key};
    }
    assert done == addition.Keys;
  }

  lemma MergedOverGrows<K, V, W>(
      target: map<K, V>, addition: map<K, W>, done: set<K>, key: K, step: (Option<V>, W) -> Option<V>)
    requires done <= addition.Keys && key in addition && key !in done
    ensures var before := MergedOver(target, addition, done, step);
      var updated := step(At(before, key), addition[key]);
      MergedOver(target, addition, done + {key}, step) ==
        if updated.Some? then before[key := updated.value] else before - {key}
  {
  }

  lemma MergedAt<K, V, W>(target: map<K, V>, addition: map<K, W>, step: (Option<V>, W) -> Option<V>, key: K)
    ensures At(Merged(target, addition, step), key) ==
      if key in addition then step(At(target, key), addition[key]) else At(target, key)
  {
  }

  lemma MergeOfNothing<K, V, W>(target: map<K, V>, addition: map<K, W>, step: (Option<V>, W) -> Option<V>)
    requires addition == map[]
    ensures Merged(target, addition, step) == target
  {
  }

  lemma SameLookups<K(!new), V>(one: map<K, V>, other: map<K, V>)
    requires forall key :: At(one, key) == At(other, key)
    ensures one == other
  {
    forall key ensures key in one <==> key in other {
      assert At(one, key) == At(other, key);
    }
    forall key | key in one ensures one[key] == other[key] {
      assert At(one, key) == At(other, key);
    }
  }

  /** The count at a key after a step, gone at zero. */
  function CountAfter(sign: Sign, prior: Option<int>, part: int): Option<int> {
    var updated := prior.GetOr(0) + sign.Count(part);
    if updated != 0 then Some(updated) else None
  }

  /** The pair at a key after a step, gone when its row count returns to zero. */
  function PairAfter(sign: Sign, prior: Option<Pair>, part: Pair): Option<Pair> {
    var before := prior.GetOr(Pair(0.0, 0));
    var updated := Pair(before.sum + sign.Amount(part.sum), before.present + sign.Count(part.present));
    if updated.present != 0 then Some(updated) else None
  }

  /** The label map of an axis after a step, gone when it is empty. */
  function LabelsAfter(
      sign: Sign, prior: Option<map<string, Pair>>, part: map<string, Pair>): Option<map<string, Pair>> {
    var updated := Merged(prior.GetOr(map[]), part, PairStep(sign));
    if updated != map[] then Some(updated) else None
  }

  function CountStep(sign: Sign): (Option<int>, int) -> Option<int> {
    (prior: Option<int>, part: int) => CountAfter(sign, prior, part)
  }

  function PairStep(sign: Sign): (Option<Pair>, Pair) -> Option<Pair> {
    (prior: Option<Pair>, part: Pair) => PairAfter(sign, prior, part)
  }

  function LabelStep(sign: Sign): (Option<map<string, Pair>>, map<string, Pair>) -> Option<map<string, Pair>> {
    (prior: Option<map<string, Pair>>, part: map<string, Pair>) => LabelsAfter(sign, prior, part)
  }

  /** A route keeps its latest reset. */
  function WindowStep(): (Option<string>, string) -> Option<string> {
    (prior: Option<string>, part: string) => Some(Max(prior.GetOr(""), part))
  }

  // ---- the whole bucket ----

  function CapCounts(cap: Option<string>): map<string, int> {
    if cap.Some? then map[cap.value := 1] else map[]
  }

  function AddFlags(total: Flags, sign: Sign, part: Flags): Flags {
    Flags(total.unknown + sign.Count(part.unknown), total.priced + sign.Count(part.priced),
          total.trackedNonfinal + sign.Count(part.trackedNonfinal),
          total.accountingOpen + sign.Count(part.accountingOpen), total.nonFinal + sign.Count(part.nonFinal))
  }

  /** Every additive member after a contribution and its cap came or went. */
  function Added(total: Totals, part: Totals, sign: Sign, cap: Option<string>): Totals {
    Totals(
      total.rows + sign.Count(part.rows),
      AddCash(total.cash, sign, part.cash),
      Merged(total.counts, part.counts, CountStep(sign)),
      AddFlags(total.flags, sign, part.flags),
      total.sessions + sign.Count(part.sessions),
      total.physical + sign.Count(part.physical),
      Merged(total.figures, part.figures, PairStep(sign)),
      Merged(total.labels, part.labels, LabelStep(sign)),
      Merged(total.tokens, part.tokens, PairStep(sign)),
      Merged(total.ttls, part.ttls, PairStep(sign)),
      Merged(total.caps, CapCounts(cap), CountStep(sign)))
  }

  method AddCap(caps: map<string, int>, sign: Sign, cap: Option<string>) returns (result: map<string, int>)
    ensures result == Merged(caps, CapCounts(cap), CountStep(sign))
  {
    if cap.Some? {
      result := Merge(caps, map[cap.value := 1], CountStep(sign));
    } else {
      MergeOfNothing(caps, CapCounts(cap), CountStep(sign));
      result := caps;
    }
  }

  method AddTotals(total: Totals, part: Totals, sign: Sign, cap: Option<string>) returns (result: Totals)
    ensures result == Added(total, part, sign, cap)
  {
    var counts := Merge(total.counts, part.counts, CountStep(sign));
    var tokens := Merge(total.tokens, part.tokens, PairStep(sign));
    var ttls := Merge(total.ttls, part.ttls, PairStep(sign));
    var figures := Merge(total.figures, part.figures, PairStep(sign));
    var labels := Merge(total.labels, part.labels, LabelStep(sign));
    var caps := AddCap(total.caps, sign, cap);
    result := Totals(
      total.rows + sign.Count(part.rows), AddCash(total.cash, sign, part.cash), counts,
      AddFlags(total.flags, sign, part.flags),
      total.sessions + sign.Count(part.sessions), total.physical + sign.Count(part.physical),
      figures, labels, tokens, ttls, caps);
  }

  /** One running summary: its additive members, and the latest reset of each session route. */
  class Bucket {
    var totals: Totals
    var windows: map<string, string>

    constructor ()
      ensures totals == EMPTY && windows == map[]
    {
      totals, windows := EMPTY, map[];
    }

    /** Add or subtract one contribution, in place. A removal takes no window back. */
    method Add(other: Totals, otherWindows: map<string, string>, sign: Sign, cap: Option<string>)
      modifies this
      ensures totals == Added(old(totals), other, sign, cap)
      ensures windows == if sign.Plus? then Merged(old(windows), otherWindows, WindowStep()) else old(windows)
    {
      totals := AddTotals(totals, other, sign, cap);
      if sign.Plus? {
        windows := Merge(windows, otherWindows, WindowStep());
      }
    }

    /** The smallest cap any row of the bucket carries. */
    method MinCap(amountOf: string -> real) returns (least: Option<real>)
      ensures IsLeast(least, HeldCaps(totals.caps), amountOf)
    {
      least := None;
      var todo := totals.caps.Keys;
      while todo != {}
        invariant todo <= totals.caps.Keys
        invariant IsLeast(least, HeldCaps(totals.caps) - todo, amountOf)
        decreases |todo|
      {
        var literal :| literal in todo;
        LeastOfOneMore(least, HeldCaps(totals.caps), todo, literal, amountOf);
        if totals.caps[literal] > 0 && (least.None? || amountOf(literal) < least.value) {
          least := Some(amountOf(literal));
        }
        todo := todo - {literal};
      }
    }
  }

  function HeldCaps(caps: map<string, int>): set<string> {
    set literal | literal in caps && caps[literal] > 0
  }

  /** One literal more: it is the least when it is held and below the least so far. */
  lemma LeastOfOneMore(
      least: Option<real>, held: set<string>, todo: set<string>, literal: string, amountOf: string -> real)
    requires literal in todo && IsLeast(least, held - todo, amountOf)
    ensures
      var next := if literal in held && (least.None? || amountOf(literal) < least.value) then Some(amountOf(literal))
                  else least;
      IsLeast(next, held - (todo - {literal}), amountOf)
  {
    var before, after := held - todo, held - (todo - {literal});
    assert after == if literal in held then before + {literal} else before;
    assert literal in held ==> literal in after;
    if least.Some? {
      var earlier :| earlier in before && amountOf(earlier) == least.value;
      assert earlier in after;
    }
  }

  ghost predicate IsLeast(least: Option<real>, literals: set<string>, amountOf: string -> real) {
    match least
    case None => literals == {}
    case Some(m) =>
      (exists literal :: literal in literals && amountOf(literal) == m) &&
      (forall literal :: literal in literals ==> m <= amountOf(literal))
  }
}
