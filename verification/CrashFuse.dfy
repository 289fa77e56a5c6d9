/** The launcher's list of crash times, and the window it stands for. */
module CrashFuse {
  const MAX_CRASH_RESTARTS := 5
  const CRASH_WINDOW_SEC := 120.0

  /** The stamps less than a window old at `now`, in order. */
  function Recent(stamps: seq<real>, now: real): seq<real> {
    if stamps == [] then []
    else (if now - stamps[0] < CRASH_WINDOW_SEC then [stamps[0]] else []) + Recent(stamps[1..], now)
  }

  /** The list after a run of crashes: each one appends its stamp and prunes the list. */
  function Kept(stamps: seq<real>): seq<real> {
    if stamps == [] then []
    else Recent(Kept(stamps[..|stamps| - 1]) + [stamps[|stamps| - 1]], stamps[|stamps| - 1])
  }

  /** No later crash came a whole window after stamp `i`. */
  ghost predicate Alive(stamps: seq<real>, i: nat)
    requires i < |stamps|
  {
    forall j :: i <= j < |stamps| ==> stamps[j] - stamps[i] < CRASH_WINDOW_SEC
  }

  ghost function Survivors(stamps: seq<real>): seq<real> {
    if stamps == [] then []
    else (if Alive(stamps, 0) then [stamps[0]] else []) + Survivors(stamps[1..])
  }

  ghost predicate Nondecreasing(stamps: seq<real>) {
    forall i, j :: 0 <= i < j < |stamps| ==> stamps[i] <= stamps[j]
  }

  lemma {:induction false} RecentAppends(a: seq<real>, b: seq<real>, now: real)
    ensures Recent(a + b, now) == Recent(a, now) + Recent(b, now)
  {
    if a == [] {
      assert a + b == b;
    } else {
      RecentAppends(a[1..], b, now);
      assert (a + b)[0] == a[0] && (a + b)[1..] == a[1..] + b;
      var head := if now - a[0] < CRASH_WINDOW_SEC then [a[0]] else [];
      calc {
        Recent(a + b, now);
        head + (Recent(a[1..], now) + Recent(b, now));
        (head + Recent(a[1..], now)) + Recent(b, now);
        Recent(a, now) + Recent(b, now);
      }
    }
  }

  lemma RecentOfHead(stamps: seq<real>, now: real)
    requires stamps != []
    ensures Recent(stamps, now) ==
      (if now - stamps[0] < CRASH_WINDOW_SEC then [stamps[0]] else []) + Recent(stamps[1..], now)
  {
  }

  /** One more crash: the head of the list and the rest of it are judged apart. */
  lemma HeadAndNow(stamps: seq<real>, now: real)
    requires stamps != []
    ensures (stamps + [now])[1..] == stamps[1..] + [now] && (stamps + [now])[0] == stamps[0]
    ensures Alive(stamps + [now], 0) <==> Alive(stamps, 0) && now - stamps[0] < CRASH_WINDOW_SEC
  {
    var longer := stamps + [now];
    assert longer[|stamps|] == now;
    assert forall j :: 0 <= j < |stamps| ==> longer[j] == stamps[j];
  }

  lemma {:induction false} SurvivorsAppend(stamps: seq<real>, now: real)
    ensures Survivors(stamps + [now]) == Recent(Survivors(stamps), now) + [now]
  {
    if stamps == [] {
      assert ([] + [now])[1..] == [];
      assert Alive([] + [now], 0);
    } else {
      SurvivorsAppend(stamps[1..], now);
      HeadAndNow(stamps, now);
      var head := if Alive(stamps, 0) then [stamps[0]] else [];
      assert Survivors(stamps) == head + Survivors(stamps[1..]);
      RecentAppends(head, Survivors(stamps[1..]), now);
      assert Recent(head, now) == if Alive(stamps + [now], 0) then [stamps[0]] else [];
    }
  }

  /** Whatever the clock does: the list holds, in order, the stamps that no later crash has
      left a window behind. */
  lemma {:induction false} KeptAreTheSurvivors(stamps: seq<real>)
    ensures Kept(stamps) == Survivors(stamps)
  {
    if stamps != [] {
      var front, now := stamps[..|stamps| - 1], stamps[|stamps| - 1];
      KeptAreTheSurvivors(front);
      SurvivorsAppend(front, now);
      assert front + [now] == stamps;
      RecentAppends(Kept(front), [now], now);
      assert Recent([now], now) == [now];
    }
  }

  /** No stamp of the window at `now` was once left a window behind. */
  ghost predicate ClockHeld(stamps: seq<real>, now: real) {
    forall i :: 0 <= i < |stamps| && now - stamps[i] < CRASH_WINDOW_SEC ==> Alive(stamps, i)
  }

  lemma ClockHeldOfRest(stamps: seq<real>, now: real)
    requires stamps != []
    ensures ClockHeld(stamps, now) <==>
      (now - stamps[0] < CRASH_WINDOW_SEC ==> Alive(stamps, 0)) && ClockHeld(stamps[1..], now)
  {
    var rest := stamps[1..];
    forall i | 0 <= i < |rest| ensures Alive(rest, i) <==> Alive(stamps, i + 1) {
      if Alive(rest, i) {
        forall j | i + 1 <= j < |stamps|
          ensures stamps[j] - stamps[i + 1] < CRASH_WINDOW_SEC
        {
          assert rest[j - 1] == stamps[j];
        }
      }
    }
    if ClockHeld(stamps, now) {
      forall i | 0 <= i < |rest| && now - rest[i] < CRASH_WINDOW_SEC
        ensures Alive(rest, i)
      {
        assert Alive(stamps, i + 1);
      }
    }
    if (now - stamps[0] < CRASH_WINDOW_SEC ==> Alive(stamps, 0)) && ClockHeld(rest, now) {
      forall i | 0 <= i < |stamps| && now - stamps[i] < CRASH_WINDOW_SEC ensures Alive(stamps, i) {
        if i > 0 { assert rest[i - 1] == stamps[i] && Alive(rest, i - 1); }
      }
    }
  }

  /** The survivors are among the recent ones, and as many only when they are the same. */
  lemma {:induction false} SurvivorsAreRecent(stamps: seq<real>, now: real)
    ensures |Survivors(stamps + [now])| <= |Recent(stamps + [now], now)|
    ensures |Survivors(stamps + [now])| == |Recent(stamps + [now], now)| <==> ClockHeld(stamps, now)
    ensures ClockHeld(stamps, now) ==> Survivors(stamps + [now]) == Recent(stamps + [now], now)
  {
    if stamps == [] {
      assert ([] + [now])[1..] == [];
      assert Alive([] + [now], 0);
    } else {
      SurvivorsAreRecent(stamps[1..], now);
      HeadAndNow(stamps, now);
      ClockHeldOfRest(stamps, now);
      RecentOfHead(stamps + [now], now);
    }
  }

  /** The list is the window of the newest crash exactly when no stamp of that window was once
      left a window behind, as only a clock that goes back can do; otherwise it is shorter. */
  lemma KeptIsTheWindow(stamps: seq<real>, now: real)
    ensures Kept(stamps + [now]) == Recent(stamps + [now], now) <==> ClockHeld(stamps, now)
    ensures |Kept(stamps + [now])| == |Recent(stamps + [now], now)| <==> ClockHeld(stamps, now)
    ensures |Kept(stamps + [now])| <= |Recent(stamps + [now], now)|
    ensures Nondecreasing(stamps + [now]) ==> ClockHeld(stamps, now)
  {
    KeptAreTheSurvivors(stamps + [now]);
    SurvivorsAreRecent(stamps, now);
    if Nondecreasing(stamps + [now]) {
      forall i, j | 0 <= i <= j < |stamps| && now - stamps[i] < CRASH_WINDOW_SEC
        ensures stamps[j] - stamps[i] < CRASH_WINDOW_SEC
      {
        assert (stamps + [now])[j] == stamps[j] && (stamps + [now])[|stamps|] == now;
      }
    }
  }

  /** A clock that went back: five crashes within the window of the last, and four in the list. */
  lemma ClockGoingBackDelaysTheFuse()
    ensures var stamps := [0.0, 200.0, 1.0, 2.0];
      |Recent(stamps + [3.0], 3.0)| == MAX_CRASH_RESTARTS && |Kept(stamps + [3.0])| < MAX_CRASH_RESTARTS
  {
    var stamps := [0.0, 200.0, 1.0, 2.0];
    var all := stamps + [3.0];
    assert all == [0.0, 200.0, 1.0, 2.0, 3.0];
    assert Recent(all, 3.0) == all by {
      assert all[1..] == [200.0, 1.0, 2.0, 3.0] && all[1..][1..] == [1.0, 2.0, 3.0] && all[1..][1..][1..] == [2.0, 3.0];
      assert Recent([3.0], 3.0) == [3.0];
      assert Recent([2.0, 3.0], 3.0) == [2.0, 3.0];
      assert Recent([1.0, 2.0, 3.0], 3.0) == [1.0, 2.0, 3.0];
      assert Recent([200.0, 1.0, 2.0, 3.0], 3.0) == [200.0, 1.0, 2.0, 3.0];
    }
    KeptIsTheWindow(stamps, 3.0);
    assert !Alive(stamps, 0) by { assert stamps[1] - stamps[0] >= CRASH_WINDOW_SEC; }
  }
}
