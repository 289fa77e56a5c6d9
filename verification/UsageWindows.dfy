/** The subscription windows of a running bucket: what stays when rows go. */
module UsageWindows {
  import opened TextOrder
  import opened UsageRows
  import opened UsageMoney
  import opened UsageBucket
  import opened UsageReversal

  function WindowsAfter(windows: map<string, string>, change: Change): map<string, string> {
    if change.Remove? then windows else Merged(windows, RowWindows(change.next.row), WindowStep())
  }

  function RunningWindows(run: seq<Change>): map<string, string> {
    if run == [] then map[] else WindowsAfter(RunningWindows(run[..|run| - 1]), run[|run| - 1])
  }

  /** The store's writes on one bucket: the old row is subtracted, the new one is added. */
  method ApplyAll(run: seq<Change>) returns (bucket: Bucket)
    ensures fresh(bucket)
    ensures bucket.totals == Running(run) && bucket.windows == RunningWindows(run)
  {
    bucket := new Bucket();
    for i := 0 to |run|
      invariant fresh(bucket)
      invariant bucket.totals == Running(run[..i]) && bucket.windows == RunningWindows(run[..i])
    {
      assert run[..i + 1][..i] == run[..i];
      var change := run[i];
      if !change.Insert? {
        bucket.Add(SummaryDelta(change.prior.row), RowWindows(change.prior.row), Minus, change.prior.cap);
      }
      if !change.Remove? {
        bucket.Add(SummaryDelta(change.next.row), RowWindows(change.next.row), Plus, change.next.cap);
      }
    }
    assert run[..|run|] == run;
  }

  /** Every reset that a row ever inserted named for the route. */
  ghost function Resets(run: seq<Change>, route: string): set<string> {
    set i | 0 <= i < |run| && !run[i].Remove? && route in RowWindows(run[i].next.row) ::
      RowWindows(run[i].next.row)[route]
  }

  lemma ResetsOfLonger(run: seq<Change>, route: string)
    requires run != []
    ensures var last := run[|run| - 1];
      Resets(run, route) == Resets(run[..|run| - 1], route) +
        (if !last.Remove? && route in RowWindows(last.next.row) then {RowWindows(last.next.row)[route]} else {})
  {
    var earlier, last := run[..|run| - 1], run[|run| - 1];
    forall reset | reset in Resets(earlier, route) ensures reset in Resets(run, route) {
      var i :| 0 <= i < |earlier| && !earlier[i].Remove? && route in RowWindows(earlier[i].next.row) &&
        RowWindows(earlier[i].next.row)[route] == reset;
      assert run[i] == earlier[i];
    }
    forall reset | reset in Resets(run, route)
      ensures reset in Resets(earlier, route) ||
        (!last.Remove? && route in RowWindows(last.next.row) && RowWindows(last.next.row)[route] == reset)
    {
      var i :| 0 <= i < |run| && !run[i].Remove? && route in RowWindows(run[i].next.row) &&
        RowWindows(run[i].next.row)[route] == reset;
      if i < |earlier| { assert earlier[i] == run[i]; }
    }
  }

  /** The greatest of some resets, none when there is none. */
  ghost predicate IsGreatest(windows: map<string, string>, route: string, resets: set<string>) {
    && (route in windows <==> resets != {})
    && (route in windows ==>
          windows[route] in resets && forall reset :: reset in resets ==> !Less(windows[route], reset))
  }

  lemma OneMoreReset(windows: map<string, string>, addition: map<string, string>, route: string, resets: set<string>)
    requires IsGreatest(windows, route, resets) && (route in addition ==> addition[route] != "")
    ensures IsGreatest(Merged(windows, addition, WindowStep()), route,
                       resets + (if route in addition then {addition[route]} else {}))
  {
    var next := Merged(windows, addition, WindowStep());
    MergedAt(windows, addition, WindowStep(), route);
    if route in addition {
      var prior := if route in windows then windows[route] else "";
      assert next[route] == Max(prior, addition[route]);
      forall reset | reset in resets + {addition[route]} ensures !Less(next[route], reset) {
        if reset in resets && next[route] == addition[route] { NotLessThrough(next[route], prior, reset); }
      }
    }
  }

  lemma NotLessThrough(a: string, b: string, c: string)
    requires !Less(a, b) && !Less(b, c)
    ensures !Less(a, c)
  {
    LessIsTotal(a, b);
    if Less(a, c) && Less(b, a) { LessIsTransitive(b, a, c); }
  }

  /** After every run a route holds the greatest reset ever inserted for it, whatever rows were
      replaced or removed since; the other members are those of the live rows. */
  lemma {:induction false} WindowsAreTheGreatestEver(run: seq<Change>, route: string)
    ensures IsGreatest(RunningWindows(run), route, Resets(run, route))
  {
    if run != [] {
      var earlier, last := run[..|run| - 1], run[|run| - 1];
      WindowsAreTheGreatestEver(earlier, route);
      ResetsOfLonger(run, route);
      if !last.Remove? {
        OneMoreReset(RunningWindows(earlier), RowWindows(last.next.row), route, Resets(earlier, route));
      }
    }
  }
}
