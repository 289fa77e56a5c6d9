/** The launcher's generations: clean up the last server, start one, wait for its exit, count
    the crashes. What the world does in one turn of the loop is that turn's input. */
module LauncherLoop {
  import opened Options
  import opened CrashFuse

  type Server = nat

  const RESTART_EXIT_CODE := 42
  const PANIC_EXIT_CODE := 99

  datatype Identity = Ours | Foreign | Unknown

  /** One turn. A shutdown flag says that the shutdown was asked for at the named moment. */
  datatype Turn = Turn(
    shutdownAtTop: bool,
    measurable: bool,
    dies: bool,
    straySurvivors: nat,
    launchAllowed: bool,
    shutdownInUpdate: bool,
    server: Server,
    recordWritten: bool,
    shutdownAtStart: bool,
    stopConfirmed: bool,
    code: int,
    recordRetired: bool,
    shutdownAtExit: bool,
    shutdownInPause: bool,
    restartRequested: bool,
    now: real)

  datatype Event =
    | Unresolved
    | Cleared
    | Started(server: Server)
    | Exited(server: Server, code: int, requested: bool)
    | Recycled
    | Crashed(at: real)
    | Fused
    | Halted

  /** `live` are the servers that run, of those a launcher recorded or this one started. */
  datatype Status = Status(
    live: set<Server>,
    record: Option<Server>,
    crashTimes: seq<real>,
    over: bool,
    trace: seq<Event>)

  /** A measurable identity is the truth: the recorded server runs, or its pid is another's. */
  function IdentityOf(server: Server, live: set<Server>, measurable: bool): Identity {
    if !measurable then Unknown else if server in live then Ours else Foreign
  }

  function Cleaned(s: Status, turn: Turn): Status {
    match s.record
    case None => s
    case Some(r) =>
      match IdentityOf(r, s.live, turn.measurable)
      case Foreign => s.(record := None)
      case Unknown => s
      case Ours => if turn.dies then s.(live := s.live - {r}, record := None) else s
  }

  /** After a wait for the child's exit: the record is retired, the exit is judged. */
  function Judged(s: Status, turn: Turn): Status {
    var reaped := s.(live := s.live - {turn.server},
                     record := if turn.recordRetired && s.record == Some(turn.server) then None else s.record,
                     trace := s.trace + [Exited(turn.server, turn.code, turn.restartRequested)]);
    if turn.shutdownAtExit || turn.code == PANIC_EXIT_CODE || turn.shutdownInPause then
      reaped.(over := true, trace := reaped.trace + [Halted])
    else if turn.restartRequested || turn.code == RESTART_EXIT_CODE then
      reaped.(trace := reaped.trace + [Recycled])
    else
      var times := Recent(s.crashTimes + [turn.now], turn.now);
      if |times| >= MAX_CRASH_RESTARTS then
        reaped.(crashTimes := times, over := true, trace := (reaped.trace + [Crashed(turn.now)]) + [Fused])
      else reaped.(crashTimes := times, trace := reaped.trace + [Crashed(turn.now)])
  }

  function Launched(s: Status, turn: Turn): Status {
    s.(live := s.live + {turn.server},
       record := if turn.recordWritten then Some(turn.server) else None,
       trace := (s.trace + [Cleared]) + [Started(turn.server)])
  }

  function Turned(s: Status, turn: Turn): Status {
    if s.over then s
    else if turn.shutdownAtTop then s.(over := true, trace := s.trace + [Halted])
    else
      var clean := Cleaned(s, turn);
      if clean.record.Some? || turn.straySurvivors > 0 then clean.(trace := s.trace + [Unresolved])
      else if !turn.launchAllowed || turn.shutdownInUpdate then
        clean.(over := true, trace := (s.trace + [Cleared]) + [Halted])
      else
        var up := Launched(clean, turn);
        if !turn.shutdownAtStart then Judged(up, turn)
        else if !turn.stopConfirmed then up.(over := true, trace := up.trace + [Halted])
        else
          up.(live := up.live - {turn.server}, over := true,
              record := if turn.recordRetired && up.record == Some(turn.server) then None else up.record,
              trace := (up.trace + [Exited(turn.server, turn.code, false)]) + [Halted])
  }

  class Launcher {
    var live: set<Server>
    var record: Option<Server>
    var crashTimes: seq<real>
    var over: bool
    var trace: seq<Event>

    function Value(): Status
      reads this
    {
      Status(live, record, crashTimes, over, trace)
    }

    constructor (status: Status)
      ensures Value() == status
    {
      live, record, crashTimes, over, trace := status.live, status.record, status.crashTimes, status.over, status.trace;
    }

    /** Stop the recorded server. Only a server known to be ours is signalled, and the record
        goes only with a server that is gone. */
    method CleanupRecordedServer(turn: Turn) returns (unresolved: bool)
      modifies this`live, this`record
      ensures (live, record) == (Cleaned(old(Value()), turn).live, Cleaned(old(Value()), turn).record)
      ensures unresolved <==> record.Some?
      ensures !unresolved ==> old(record).Some? ==> old(record).value !in live
      ensures live != old(live) ==> turn.measurable && old(record).Some? && live == old(live) - {old(record).value}
    {
      if record.None? { return false; }
      match IdentityOf(record.value, live, turn.measurable) {
        case Foreign =>
          record := None;
          return false;
        case Unknown =>
          return true;
        case Ours =>
          if !turn.dies { return true; }
          live := live - {record.value};
          record := None;
          return false;
      }
    }

    method Retire(server: Server, retired: bool)
      modifies this`live, this`record
      ensures live == old(live) - {server}
      ensures record == if retired && old(record) == Some(server) then None else old(record)
    {
      live := live - {server};
      if retired && record == Some(server) { record := None; }
    }

    method Start(turn: Turn)
      modifies this`live, this`record, this`trace
      ensures Value() == Launched(old(Value()), turn)
    {
      trace := trace + [Cleared];
      live, trace := live + {turn.server}, trace + [Started(turn.server)];
      record := if turn.recordWritten then Some(turn.server) else None;
    }

    method Judge(turn: Turn)
      requires !over
      modifies this
      ensures Value() == Judged(old(Value()), turn)
    {
      Retire(turn.server, turn.recordRetired);
      trace := trace + [Exited(turn.server, turn.code, turn.restartRequested)];
      if turn.shutdownAtExit || turn.code == PANIC_EXIT_CODE || turn.shutdownInPause {
        trace, over := trace + [Halted], true;
        return;
      }
      if turn.restartRequested || turn.code == RESTART_EXIT_CODE {
        trace := trace + [Recycled];
        return;
      }
      crashTimes := crashTimes + [turn.now];
      crashTimes := Recent(crashTimes, turn.now);
      trace := trace + [Crashed(turn.now)];
      if |crashTimes| >= MAX_CRASH_RESTARTS {
        trace, over := trace + [Fused], true;
      }
    }

    method Generation(turn: Turn)
      requires !over
      modifies this
      ensures Value() == Turned(old(Value()), turn)
    {
      if turn.shutdownAtTop {
        trace, over := trace + [Halted], true;
        return;
      }
      var unresolved := CleanupRecordedServer(turn);
      if unresolved || turn.straySurvivors > 0 {
        trace := trace + [Unresolved];
        return;
      }
      if !turn.launchAllowed || turn.shutdownInUpdate {
        trace, over := trace + [Cleared] + [Halted], true;
        return;
      }
      Start(turn);
      if !turn.shutdownAtStart {
        Judge(turn);
        return;
      }
      if turn.stopConfirmed {
        Retire(turn.server, turn.recordRetired);
        trace := trace + [Exited(turn.server, turn.code, false)];
      }
      trace, over := trace + [Halted], true;
    }

    /** The loop, as far as `turns` goes. */
    method LifecycleLoop(turns: seq<Turn>)
      modifies this
      ensures Value() == After(old(Value()), turns)
    {
      var i := 0;
      while !over && i < |turns|
        invariant 0 <= i <= |turns|
        invariant Value() == After(old(Value()), turns[..i])
      {
        AfterOneMore(old(Value()), turns, i);
        Generation(turns[i]);
        i := i + 1;
      }
      OverStays(old(Value()), turns, i);
    }
  }

  function After(s: Status, turns: seq<Turn>): Status {
    if turns == [] then s
    else Turned(After(s, turns[..|turns| - 1]), turns[|turns| - 1])
  }

  lemma AfterOneMore(s: Status, turns: seq<Turn>, i: nat)
    requires i < |turns|
    ensures After(s, turns[..i + 1]) == Turned(After(s, turns[..i]), turns[i])
  {
    assert turns[..i + 1][..i] == turns[..i];
  }

  lemma {:induction false} OverStays(s: Status, turns: seq<Turn>, i: nat)
    requires i <= |turns| && (After(s, turns[..i]).over || i == |turns|)
    ensures After(s, turns) == After(s, turns[..i])
    decreases |turns| - i
  {
    if i < |turns| {
      AfterOneMore(s, turns, i);
      OverStays(s, turns, i + 1);
    } else {
      assert turns[..i] == turns;
    }
  }

  // ---- what every run of the loop keeps ----

  function Stamps(trace: seq<Event>): seq<real> {
    if trace == [] then []
    else
      var last := trace[|trace| - 1];
      var before := Stamps(trace[..|trace| - 1]);
      if last.Crashed? then before + [last.at] else before
  }

  /** The server started and not yet waited for. */
  function Unreaped(trace: seq<Event>): Option<Server> {
    if trace == [] then None
    else
      match trace[|trace| - 1]
      case Started(server) => Some(server)
      case Exited(_, _, _) => None
      case _ => Unreaped(trace[..|trace| - 1])
  }

  predicate Ends(event: Event) {
    event.Halted? || event.Fused? || (event.Exited? && event.code == PANIC_EXIT_CODE)
  }

  ghost predicate Ended(trace: seq<Event>) {
    exists i :: 0 <= i < |trace| && Ends(trace[i])
  }

  predicate Counts(event: Event) {
    event.Exited? && event.code != RESTART_EXIT_CODE && event.code != PANIC_EXIT_CODE && !event.requested
  }

  predicate LastIs(trace: seq<Event>, event: Event) {
    trace != [] && trace[|trace| - 1] == event
  }

  /** The newest event is a crash that fills the window. */
  ghost predicate Full(past: seq<Event>) {
    past != [] && past[|past| - 1].Crashed? && |Kept(Stamps(past))| >= MAX_CRASH_RESTARTS
  }

  /** When an event may come after `past`. */
  ghost predicate MayFollow(past: seq<Event>, event: Event) {
    && (event.Fused? <==> Full(past))
    && match event
       case Started(_) => LastIs(past, Cleared) && Unreaped(past).None? && !Ended(past)
       case Exited(server, _, _) => Unreaped(past) == Some(server)
       case Crashed(_) => past != [] && Counts(past[|past| - 1])
       case Recycled => past != [] && past[|past| - 1].Exited? && !Counts(past[|past| - 1])
       case _ => true
  }

  ghost predicate Lawful(trace: seq<Event>) {
    forall i :: 0 <= i < |trace| ==> MayFollow(trace[..i], trace[i])
  }

  lemma AppendedIsLawful(trace: seq<Event>, event: Event)
    requires Lawful(trace) && MayFollow(trace, event)
    ensures Lawful(trace + [event])
  {
    var longer := trace + [event];
    forall i | 0 <= i < |longer| ensures MayFollow(longer[..i], longer[i]) {
      if i < |trace| {
        assert longer[..i] == trace[..i] && longer[i] == trace[i];
      } else {
        assert longer[..i] == trace && longer[i] == event;
      }
    }
  }

  lemma Appended(trace: seq<Event>, event: Event)
    ensures Lawful(trace) && MayFollow(trace, event) ==> Lawful(trace + [event])
    ensures Stamps(trace + [event]) == if event.Crashed? then Stamps(trace) + [event.at] else Stamps(trace)
    ensures Unreaped(trace + [event]) ==
      (match event case Started(x) => Some(x) case Exited(_, _, _) => None case _ => Unreaped(trace))
    ensures Ended(trace + [event]) <==> Ended(trace) || Ends(event)
  {
    var longer := trace + [event];
    assert longer[..|longer| - 1] == trace;
    if Lawful(trace) && MayFollow(trace, event) { AppendedIsLawful(trace, event); }
    assert longer[|trace|] == event;
    forall i | 0 <= i < |trace| ensures longer[i] == trace[i] {
    }
  }

  /** What the trace of a loop between two turns keeps. */
  ghost predicate Between(trace: seq<Event>, times: seq<real>, over: bool) {
    && Lawful(trace) && !Full(trace) && times == Kept(Stamps(trace))
    && (!over ==> !Ended(trace) && Unreaped(trace).None? && |times| < MAX_CRASH_RESTARTS)
  }

  /** And while `server` is up. */
  ghost predicate While(trace: seq<Event>, times: seq<real>, server: Server) {
    && Lawful(trace) && !Full(trace) && !Ended(trace) && times == Kept(Stamps(trace))
    && |times| < MAX_CRASH_RESTARTS && Unreaped(trace) == Some(server)
  }

  ghost predicate StatusInv(s: Status) {
    && Between(s.trace, s.crashTimes, s.over)
    && (!s.over ==> forall x :: x in s.live ==> s.record == Some(x))
  }

  lemma KeptOfOneMore(stamps: seq<real>, now: real)
    ensures Kept(stamps + [now]) == Recent(Kept(stamps) + [now], now)
  {
    assert (stamps + [now])[..|stamps|] == stamps;
  }

  /** After an unresolved cleanup nothing starts; otherwise no known server runs. */
  lemma ClearedRunsNothing(s: Status, turn: Turn)
    requires StatusInv(s) && !s.over
    ensures Cleaned(s, turn).record.None? ==> Cleaned(s, turn).live == {}
    ensures forall x :: x in Cleaned(s, turn).live ==> Cleaned(s, turn).record == Some(x)
  {
  }

  lemma WaitTurn(trace: seq<Event>, times: seq<real>)
    requires Between(trace, times, false)
    ensures Between(trace + [Unresolved], times, false)
  {
    Appended(trace, Unresolved);
  }

  lemma HaltTurn(trace: seq<Event>, times: seq<real>)
    requires Between(trace, times, false)
    ensures Between(trace + [Halted], times, true)
  {
    Appended(trace, Halted);
  }

  lemma ClearedHaltTurn(trace: seq<Event>, times: seq<real>)
    requires Between(trace, times, false)
    ensures Between((trace + [Cleared]) + [Halted], times, true)
  {
    Appended(trace, Cleared);
    Appended(trace + [Cleared], Halted);
  }

  lemma StartTurn(trace: seq<Event>, times: seq<real>, server: Server)
    requires Between(trace, times, false)
    ensures While((trace + [Cleared]) + [Started(server)], times, server)
  {
    Appended(trace, Cleared);
    Appended(trace + [Cleared], Started(server));
  }

  lemma ExitStops(trace: seq<Event>, times: seq<real>, exit: Event)
    requires exit.Exited? && While(trace, times, exit.server)
    ensures Between(trace + [Halted], times, true)
    ensures Between((trace + [exit]) + [Halted], times, true)
  {
    Appended(trace, Halted);
    Appended(trace, exit);
    Appended(trace + [exit], Halted);
  }

  lemma ExitRecycles(trace: seq<Event>, times: seq<real>, exit: Event)
    requires exit.Exited? && While(trace, times, exit.server) && !Counts(exit) && exit.code != PANIC_EXIT_CODE
    ensures Between((trace + [exit]) + [Recycled], times, false)
  {
    Appended(trace, exit);
    Appended(trace + [exit], Recycled);
  }

  lemma ExitCrashes(trace: seq<Event>, times: seq<real>, exit: Event, now: real)
    requires exit.Exited? && While(trace, times, exit.server) && Counts(exit)
    ensures var after, crashed := Recent(times + [now], now), (trace + [exit]) + [Crashed(now)];
      if |after| >= MAX_CRASH_RESTARTS then Between(crashed + [Fused], after, true) else Between(crashed, after, false)
  {
    Appended(trace, exit);
    Appended(trace + [exit], Crashed(now));
    Appended((trace + [exit]) + [Crashed(now)], Fused);
    KeptOfOneMore(Stamps(trace), now);
  }

  lemma JudgedKeeps(s: Status, turn: Turn)
    requires While(s.trace, s.crashTimes, turn.server) && s.live == {turn.server} && !s.over
    ensures StatusInv(Judged(s, turn)) && Judged(s, turn).live == {}
  {
    var exit := Exited(turn.server, turn.code, turn.restartRequested);
    ExitStops(s.trace, s.crashTimes, exit);
    if turn.code != PANIC_EXIT_CODE {
      if Counts(exit) {
        ExitCrashes(s.trace, s.crashTimes, exit, turn.now);
      } else {
        ExitRecycles(s.trace, s.crashTimes, exit);
      }
    }
  }

  lemma LaunchedKeeps(s: Status, turn: Turn)
    requires StatusInv(s) && !s.over && Launches(s, turn)
    ensures StatusInv(Turned(s, turn)) && |Turned(s, turn).live| <= 1
  {
    ClearedRunsNothing(s, turn);
    var up := Launched(Cleaned(s, turn), turn);
    StartTurn(s.trace, s.crashTimes, turn.server);
    assert up.live == {turn.server};
    if turn.shutdownAtStart {
      ExitStops(up.trace, s.crashTimes, Exited(turn.server, turn.code, false));
    } else {
      JudgedKeeps(up, turn);
    }
  }

  predicate Launches(s: Status, turn: Turn) {
    && !turn.shutdownAtTop && Cleaned(s, turn).record.None? && turn.straySurvivors == 0
    && turn.launchAllowed && !turn.shutdownInUpdate
  }

  lemma UnlaunchedTrace(s: Status, turn: Turn)
    requires !s.over && !Launches(s, turn)
    ensures var t := Turned(s, turn);
      && t.crashTimes == s.crashTimes
      && if t.over then t.trace == s.trace + [Halted] || t.trace == (s.trace + [Cleared]) + [Halted]
         else
           && t.trace == s.trace + [Unresolved]
           && t.live == Cleaned(s, turn).live && t.record == Cleaned(s, turn).record
  {
  }

  lemma UnlaunchedKeeps(s: Status, turn: Turn)
    requires StatusInv(s) && !s.over && !Launches(s, turn)
    ensures StatusInv(Turned(s, turn))
  {
    UnlaunchedTrace(s, turn);
    ClearedRunsNothing(s, turn);
    WaitTurn(s.trace, s.crashTimes);
    HaltTurn(s.trace, s.crashTimes);
    ClearedHaltTurn(s.trace, s.crashTimes);
  }

  lemma UnlaunchedRuns(s: Status, turn: Turn)
    requires !s.over && !Launches(s, turn) && forall x :: x in s.live ==> s.record == Some(x)
    ensures |Turned(s, turn).live| <= 1
  {
    AtMostTheRecord(Turned(s, turn).live, s.record);
  }

  lemma TurnedKeeps(s: Status, turn: Turn)
    requires StatusInv(s)
    ensures StatusInv(Turned(s, turn))
    ensures !s.over ==> |Turned(s, turn).live| <= 1
  {
    if !s.over {
      if Launches(s, turn) { LaunchedKeeps(s, turn); } else { UnlaunchedKeeps(s, turn); UnlaunchedRuns(s, turn); }
    }
  }

  lemma AtMostTheRecord(live: set<Server>, record: Option<Server>)
    requires forall x :: x in live ==> record == Some(x)
    ensures |live| <= 1
  {
    if record.Some? {
      assert live <= {record.value};
      SubsetIsSmaller(live, {record.value});
    } else {
      assert live == {};
    }
  }

  lemma SubsetIsSmaller(a: set<Server>, b: set<Server>)
    requires a <= b
    ensures |a| <= |b|
  {
    assert b == a + (b - a);
  }

  predicate Fresh(s: Status) {
    s.crashTimes == [] && !s.over && s.trace == [] && forall x :: x in s.live ==> s.record == Some(x)
  }

  lemma {:induction false} RunKeeps(s: Status, turns: seq<Turn>)
    requires Fresh(s)
    ensures StatusInv(After(s, turns))
  {
    if turns != [] {
      RunKeeps(s, turns[..|turns| - 1]);
      TurnedKeeps(After(s, turns[..|turns| - 1]), turns[|turns| - 1]);
    }
  }

  // ---- the promises ----

  /** A server starts right after a clean-up that left nothing, when the one before it was
      waited for, and never after a Panic exit or the end of the loop. */
  lemma StartsOnlyWhenClear(s: Status, turns: seq<Turn>, i: nat)
    requires Fresh(s) && i < |After(s, turns).trace| && After(s, turns).trace[i].Started?
    ensures var past := After(s, turns).trace[..i];
      LastIs(past, Cleared) && Unreaped(past).None? && forall j :: 0 <= j < i ==> !Ends(past[j])
  {
    RunKeeps(s, turns);
    assert MayFollow(After(s, turns).trace[..i], After(s, turns).trace[i]);
  }

  lemma CrashIsCounted(trace: seq<Event>, i: nat)
    requires Lawful(trace) && i < |trace| && trace[i].Crashed?
    ensures i > 0 && Counts(trace[i - 1])
    ensures Stamps(trace[..i + 1]) == Stamps(trace[..i]) + [trace[i].at]
  {
    var past := trace[..i];
    assert MayFollow(past, trace[i]);
    assert past != [] && past[|past| - 1] == trace[i - 1];
    assert trace[..i + 1][..i] == past;
  }

  lemma CrashIsJudged(trace: seq<Event>, i: nat)
    requires Lawful(trace) && !Full(trace) && i < |trace| && trace[i].Crashed?
    ensures (i + 1 < |trace| && trace[i + 1].Fused?) <==> |Kept(Stamps(trace[..i + 1]))| >= MAX_CRASH_RESTARTS
  {
    var now := trace[..i + 1];
    assert now[|now| - 1] == trace[i];
    if i + 1 < |trace| {
      assert MayFollow(now, trace[i + 1]);
    } else {
      assert now == trace;
    }
  }

  /** The fuse trips right after a crash exactly when it is the fifth in the window, as the
      surviving stamps count it; a restart on request or with code 42 adds no stamp. */
  lemma FuseTripsAtTheFifth(s: Status, turns: seq<Turn>, i: nat)
    requires Fresh(s) && i < |After(s, turns).trace| && After(s, turns).trace[i].Crashed?
    ensures var trace := After(s, turns).trace;
      var stamps := Stamps(trace[..i + 1]);
      && i > 0 && Counts(trace[i - 1])
      && ((i + 1 < |trace| && trace[i + 1].Fused?) <==> |Survivors(stamps)| >= MAX_CRASH_RESTARTS)
      && (Nondecreasing(stamps) ==> Survivors(stamps) == Recent(stamps, trace[i].at))
  {
    RunKeeps(s, turns);
    var trace := After(s, turns).trace;
    CrashIsCounted(trace, i);
    CrashIsJudged(trace, i);
    KeptAreTheSurvivors(Stamps(trace[..i + 1]));
    KeptIsTheWindow(Stamps(trace[..i]), trace[i].at);
  }

  /** In every turn at most one known server runs, and none while the next one is started. */
  lemma OneServerAtATime(s: Status, turns: seq<Turn>, turn: Turn)
    requires Fresh(s) && !After(s, turns).over
    ensures |Turned(After(s, turns), turn).live| <= 1
    ensures Started(turn.server) in Turned(After(s, turns), turn).trace[|After(s, turns).trace|..] ==>
      Cleaned(After(s, turns), turn).live == {}
  {
    RunKeeps(s, turns);
    var before := After(s, turns);
    TurnedKeeps(before, turn);
    ClearedRunsNothing(before, turn);
  }

  function News(s: Status, turn: Turn): seq<Event>
    requires s.trace <= Turned(s, turn).trace
  {
    Turned(s, turn).trace[|s.trace|..]
  }

  lemma TraceGrows(s: Status, turn: Turn)
    ensures s.trace <= Turned(s, turn).trace
  {
  }

  lemma NewsOfStart(s: Status, turn: Turn, rest: seq<Event>)
    requires Turned(s, turn).trace == ((s.trace + [Cleared]) + [Started(turn.server)]) + rest
    ensures s.trace <= Turned(s, turn).trace && News(s, turn) == [Cleared, Started(turn.server)] + rest
  {
    assert ((s.trace + [Cleared]) + [Started(turn.server)]) + rest ==
      s.trace + ([Cleared, Started(turn.server)] + rest);
  }

  /** The events after a start, in order. */
  function AfterStart(times: seq<real>, turn: Turn): seq<Event> {
    var exit := Exited(turn.server, turn.code, !turn.shutdownAtStart && turn.restartRequested);
    if turn.shutdownAtStart then (if turn.stopConfirmed then [exit, Halted] else [Halted])
    else if Interrupted(turn) || turn.code == PANIC_EXIT_CODE then [exit, Halted]
    else if turn.restartRequested || turn.code == RESTART_EXIT_CODE then [exit, Recycled]
    else if |Recent(times + [turn.now], turn.now)| >= MAX_CRASH_RESTARTS then [exit, Crashed(turn.now), Fused]
    else [exit, Crashed(turn.now)]
  }

  lemma JudgedTrace(s: Status, turn: Turn)
    requires !turn.shutdownAtStart
    ensures Judged(s, turn).trace == s.trace + AfterStart(s.crashTimes, turn)
  {
  }

  lemma LaunchedTrace(s: Status, turn: Turn)
    requires !s.over && Launches(s, turn)
    ensures Turned(s, turn).trace == ((s.trace + [Cleared]) + [Started(turn.server)]) + AfterStart(s.crashTimes, turn)
  {
    var up := Launched(Cleaned(s, turn), turn);
    if !turn.shutdownAtStart { JudgedTrace(up, turn); }
  }

  lemma LaunchedNews(s: Status, turn: Turn)
    requires !s.over && Launches(s, turn)
    ensures s.trace <= Turned(s, turn).trace
    ensures Started(turn.server) in News(s, turn)
    ensures Crashed(turn.now) in News(s, turn) <==>
      !Interrupted(turn) && turn.code !in {RESTART_EXIT_CODE, PANIC_EXIT_CODE} && !turn.restartRequested
  {
    var rest := AfterStart(s.crashTimes, turn);
    LaunchedTrace(s, turn);
    NewsOfStart(s, turn, rest);
    assert News(s, turn)[1] == Started(turn.server);
    assert Crashed(turn.now) in News(s, turn) <==> Crashed(turn.now) in rest;
  }

  lemma UnlaunchedNews(s: Status, turn: Turn)
    requires !s.over && !Launches(s, turn)
    ensures s.trace <= Turned(s, turn).trace
    ensures forall e :: e in News(s, turn) ==> e == Cleared || e == Unresolved || e == Halted
  {
    UnlaunchedTrace(s, turn);
    assert (s.trace + [Cleared]) + [Halted] == s.trace + [Cleared, Halted];
  }

  /** A turn starts its server exactly when nothing forbids it; it counts a crash exactly when
      that server then exits by itself, unrequested, with neither the restart nor the Panic code;
      and the loop ends exactly on a shutdown, a refused launch, Panic, or a tripped fuse. */
  lemma TurnDoesExactly(s: Status, turn: Turn)
    requires !s.over
    ensures s.trace <= Turned(s, turn).trace
    ensures Started(turn.server) in News(s, turn) <==> Launches(s, turn)
    ensures Crashed(turn.now) in News(s, turn) <==>
      Launches(s, turn) && !Interrupted(turn) && turn.code !in {RESTART_EXIT_CODE, PANIC_EXIT_CODE} &&
        !turn.restartRequested
    ensures Turned(s, turn).over <==> LoopEnds(s, turn)
  {
    TraceGrows(s, turn);
    if Launches(s, turn) { LaunchedNews(s, turn); } else { UnlaunchedNews(s, turn); }
  }

  predicate Interrupted(turn: Turn) {
    turn.shutdownAtStart || turn.shutdownAtExit || turn.shutdownInPause
  }

  predicate LoopEnds(s: Status, turn: Turn) {
    if turn.shutdownAtTop then true
    else if Cleaned(s, turn).record.Some? || turn.straySurvivors > 0 then false
    else if !Launches(s, turn) || Interrupted(turn) || turn.code == PANIC_EXIT_CODE then true
    else
      && !turn.restartRequested && turn.code != RESTART_EXIT_CODE
      && |Recent(s.crashTimes + [turn.now], turn.now)| >= MAX_CRASH_RESTARTS
  }

  /** A record goes exactly when its identity can be measured and its server is gone or dies: one
      that names another process is retired at once, one that cannot be measured stays, and no
      other server is touched. */
  lemma CleansExactly(s: Status, turn: Turn)
    ensures var t := Cleaned(s, turn);
      && t == s.(record := t.record, live := t.live)
      && (s.record.None? ==> t == s)
      && (s.record.Some? ==>
            var r := s.record.value;
            && t.record == (if turn.measurable && (r !in s.live || turn.dies) then None else s.record)
            && t.live == (if turn.measurable && turn.dies then s.live - {r} else s.live))
  {
  }

  /** So a turn starts a server exactly when nothing recorded can still run, no stray survived,
      and neither the launch intent nor a shutdown forbids it: the loop waits for ever only on a
      server that does not die or cannot be measured. */
  lemma StartsExactlyWhenFree(s: Status, turn: Turn)
    ensures Launches(s, turn) <==>
      && !turn.shutdownAtTop && turn.straySurvivors == 0 && turn.launchAllowed && !turn.shutdownInUpdate
      && (s.record.Some? ==> turn.measurable && (s.record.value !in s.live || turn.dies))
  {
  }

  /** What a turn that started leaves recorded and running: the record of its server unless it was
      not written or was retired with the exit; the server only when its stop was not confirmed. */
  lemma LeavesBehind(s: Status, turn: Turn)
    requires !s.over && Launches(s, turn) && forall x :: x in s.live ==> s.record == Some(x)
    ensures var t, stopped := Turned(s, turn), !turn.shutdownAtStart || turn.stopConfirmed;
      && t.live == (if stopped then {} else {turn.server})
      && t.record == (if turn.recordWritten && !(stopped && turn.recordRetired) then Some(turn.server) else None)
  {
    ClearedLive(s, turn);
  }

  lemma ClearedLive(s: Status, turn: Turn)
    requires Cleaned(s, turn).record.None? && forall x :: x in s.live ==> s.record == Some(x)
    ensures Cleaned(s, turn).live == {}
  {
  }
}
