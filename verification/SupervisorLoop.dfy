/** The loop a dispatch supervisor makes around its child: heartbeats, edit
    probes, and the first of three causes to stop the child. */
module SupervisorLoop {
  import opened Options
  import opened Heartbeats

  datatype Outcome = Completed | Failed | Cancelled | TimedOut | StalledNoEdit

  /** Times are in milliseconds of the monotonic clock. */
  const HEARTBEAT := 5_000
  const EDIT_PROBE := 30_000
  const KILL_GRACE := 10_000
  const POLL := 100

  const SIGTERM := 15

  /** What the outside world does in one turn: the child's exit, the time that
      passes, a termination request, what the probes would find, whether a
      signal fails for want of a process, and the exit code after a kill. */
  datatype Turn = Turn(
    exit: Option<int>, delay: nat, requested: bool, editFound: bool, toolCallsFound: nat, signalFails: bool, killedExit: int)

  /** One job's run: `world(k)` is what the outside does in turn `k`. */
  datatype Child = Child(
    world: nat -> Turn, startedAt: int, timeout: nat, limit: Option<nat>, editedBefore: bool, toolCallsBefore: nat)

  // ----- the loop, turn by turn -----

  /** The clock as turn `k` reads it; a turn that goes on sleeps. */
  function Clock(c: Child, k: nat): int {
    (if k == 0 then c.startedAt else Clock(c, k - 1) + POLL) + c.world(k).delay
  }

  /** A termination was requested in some turn up to `k`. */
  predicate Requested(c: Child, k: nat) {
    c.world(k).requested || (k > 0 && Requested(c, k - 1))
  }

  /** The probes' side of the loop. */
  datatype Watch = Watch(nextHeartbeat: int, nextEditProbe: int, edited: bool, toolCalls: nat, beats: seq<int>)

  function Probed(w: Watch, t: Turn, now: int): Watch {
    if now < w.nextHeartbeat then w
    else
      var beaten := w.(nextHeartbeat := now + HEARTBEAT, beats := w.beats + [now]);
      if now < w.nextEditProbe then beaten
      else beaten.(nextEditProbe := now + EDIT_PROBE, edited := w.edited || t.editFound, toolCalls := t.toolCallsFound)
  }

  /** What the probes have found before turn `k`. */
  function Watched(c: Child, k: nat): Watch {
    if k == 0 then Watch(c.startedAt + HEARTBEAT, c.startedAt, c.editedBefore, c.toolCallsBefore, [])
    else Probed(Watched(c, k - 1), c.world(k - 1), Clock(c, k - 1))
  }

  /** The cause to stop that turn `k` sees, if no earlier turn has seen one. */
  function CauseAt(c: Child, k: nat): Option<Outcome> {
    var w := Watched(c, k + 1);
    if Requested(c, k) then Some(Cancelled)
    else if Clock(c, k) >= c.startedAt + c.timeout then Some(TimedOut)
    else if c.limit.Some? && !w.edited && w.toolCalls >= c.limit.value then Some(StalledNoEdit)
    else None
  }

  /** The first turn before `n` that sees a cause. */
  function FirstCause(c: Child, n: nat): (r: Option<nat>)
    ensures r.Some? ==> r.value < n && CauseAt(c, r.value).Some? && forall k | 0 <= k < r.value :: CauseAt(c, k).None?
    ensures r.None? ==> forall k | 0 <= k < n :: CauseAt(c, k).None?
  {
    if n == 0 then None
    else if FirstCause(c, n - 1).Some? then FirstCause(c, n - 1)
    else if CauseAt(c, n - 1).Some? then Some(n - 1)
    else None
  }

  /** How turn `n` ends the loop, if it does. */
  datatype Ending = GoesOn | ChildExits | SignalLost | Killed

  function EndingAt(c: Child, n: nat): Ending {
    if c.world(n).exit.Some? then ChildExits
    else
      match FirstCause(c, n)
      case None => if CauseAt(c, n).Some? && c.world(n).signalFails then SignalLost else GoesOn
      case Some(k) => if Clock(c, n) - Clock(c, k) >= KILL_GRACE then Killed else GoesOn
  }

  predicate IsLast(c: Child, n: nat) {
    (forall k | 0 <= k < n :: EndingAt(c, k).GoesOn?) && !EndingAt(c, n).GoesOn?
  }

  function ExitCode(outcome: Outcome, exit: int): int {
    match outcome
    case TimedOut => 124
    case StalledNoEdit => 125
    case Cancelled => if exit == 0 then 128 + SIGTERM else exit
    case _ => exit
  }

  /** The outcome and exit code of a loop that ends in turn `n`. */
  function Result(c: Child, n: nat): (Outcome, int) {
    var cause := FirstCause(c, n);
    match EndingAt(c, n)
    case Killed =>
      var outcome := if cause.Some? then CauseAt(c, cause.value).value else Failed;
      (outcome, ExitCode(outcome, c.world(n).killedExit))
    case ChildExits =>
      var exit := c.world(n).exit.value;
      var outcome := if cause.Some? then CauseAt(c, cause.value).value else if exit == 0 then Completed else Failed;
      (outcome, ExitCode(outcome, exit))
    case _ => (Failed, 70)
  }

  // ----- what every run of the loop keeps -----

  lemma {:induction false} RequestMeansTurn(c: Child, k: nat)
    ensures Requested(c, k) <==> exists j | 0 <= j <= k :: c.world(j).requested
  {
    if k > 0 {
      RequestMeansTurn(c, k - 1);
    }
    if c.world(k).requested {
      assert 0 <= k <= k;
    }
  }

  lemma {:induction false} ClockRises(c: Child, j: nat, k: nat)
    requires j <= k
    ensures Clock(c, j) <= Clock(c, k) && c.startedAt <= Clock(c, j)
    decreases k
  {
    if j < k {
      ClockRises(c, j, k - 1);
    } else if k > 0 {
      ClockRises(c, k - 1, k - 1);
    }
  }

  lemma {:induction false} EditsStay(c: Child, j: nat, k: nat)
    requires j <= k && Watched(c, j).edited
    ensures Watched(c, k).edited
    decreases k
  {
    hide Clock;
    if j < k {
      EditsStay(c, j, k - 1);
    }
  }

  /** What cause a turn sees: a request made by then comes first, then the deadline,
      then the limit on tool calls without an edit. */
  lemma CauseMeans(c: Child, k: nat)
    ensures var requested, late := exists j | 0 <= j <= k :: c.world(j).requested, Clock(c, k) >= c.startedAt + c.timeout;
      var w := Watched(c, k + 1);
      && (CauseAt(c, k) == Some(Cancelled) <==> requested)
      && (CauseAt(c, k) == Some(TimedOut) <==> !requested && late)
      && (CauseAt(c, k) == Some(StalledNoEdit) <==>
            !requested && !late && c.limit.Some? && !w.edited && w.toolCalls >= c.limit.value)
      && (CauseAt(c, k).None? <==>
            !requested && !late && !(c.limit.Some? && !w.edited && w.toolCalls >= c.limit.value))
  {
    hide Clock, Watched, Requested;
    RequestMeansTurn(c, k);
  }

  /** Turn `k` is the first to see a cause, and sees `cause`. */
  predicate SeesFirst(c: Child, k: nat, cause: Outcome) {
    CauseAt(c, k) == Some(cause) && forall j | 0 <= j < k :: CauseAt(c, j).None?
  }

  /** A loop ends with one of the three causes exactly when the first turn to see a
      cause saw that one, and its signal found the child. */
  lemma CausesDecide(c: Child, n: nat, cause: Outcome)
    requires IsLast(c, n) && cause in {Cancelled, TimedOut, StalledNoEdit}
    ensures Result(c, n).0 == cause <==> exists k | 0 <= k < n :: SeesFirst(c, k, cause)
  {
    hide Clock, Watched, CauseAt, ExitCode;
    if FirstCause(c, n).Some? {
      assert CauseAt(c, FirstCause(c, n).value) == Some(cause) ==> SeesFirst(c, FirstCause(c, n).value, cause);
    }
    forall k | 0 <= k < n && SeesFirst(c, k, cause) ensures Result(c, n).0 == cause {
      assert FirstCause(c, n) == Some(k);
    }
  }

  /** A child whose termination is requested before any other cause, and which is
      still there when the signal is sent, ends cancelled, however long it takes. */
  lemma RequestsCancel(c: Child, n: nat, k: nat)
    requires IsLast(c, n) && k < n && c.world(k).requested
    requires forall j | 0 <= j < k :: CauseAt(c, j).None?
    ensures Result(c, n).0 == Cancelled && Result(c, n).1 != 0
  {
    hide Clock, Watched, Result, IsLast, CauseAt;
    CauseMeans(c, k);
    CausesDecide(c, n, Cancelled);
    assert SeesFirst(c, k, Cancelled);
    ResultMeans(c, n);
  }

  /** Heartbeats are at least five seconds apart. */
  lemma {:induction false} BeatsAreSpaced(c: Child, n: nat)
    ensures var w := Watched(c, n);
      w.nextHeartbeat == LastBeat(c.startedAt, w.beats) + 5_000 && BeatsApart(c.startedAt, w.beats, 5_000)
  {
    hide Clock, BeatsApart, LastBeat;
    if n > 0 {
      BeatsAreSpaced(c, n - 1);
      var v, now := Watched(c, n - 1), Clock(c, n - 1);
      if now >= v.nextHeartbeat {
        OneBeatApart(c.startedAt, v.beats, now, 5_000);
      }
    } else {
      NoBeatsApart(c.startedAt, 5_000);
    }
  }

  /** What a turn's probes do: with a heartbeat that is due and thirty seconds after
      the last probe, an edit found counts for good and the calls are counted anew. */
  lemma ProbesMean(c: Child, k: nat)
    ensures var v, w, now, t := Watched(c, k), Watched(c, k + 1), Clock(c, k), c.world(k);
      var beats, probes := now >= v.nextHeartbeat, now >= v.nextHeartbeat && now >= v.nextEditProbe;
      && w.beats == (if beats then v.beats + [now] else v.beats)
      && w.nextEditProbe == (if probes then now + 30_000 else v.nextEditProbe)
      && (w.edited <==> v.edited || (probes && t.editFound))
      && w.toolCalls == (if probes then t.toolCallsFound else v.toolCalls)
  {
    hide Clock;
  }

  /** Exit code 0 is for completed jobs alone, and those are the ones whose child
      exits with 0 before any cause to stop it. Every other outcome names what
      happened, and in which turns. */
  lemma ResultMeans(c: Child, n: nat)
    requires IsLast(c, n)
    ensures var (outcome, exitCode) := Result(c, n);
      && (exitCode == 0 <==> outcome.Completed?)
      && (outcome.Completed? <==> c.world(n).exit == Some(0) && FirstCause(c, n).None?)
      && (outcome.Failed? <==>
            || (c.world(n).exit.Some? && c.world(n).exit != Some(0) && FirstCause(c, n).None?)
            || EndingAt(c, n).SignalLost?)
      && (outcome.Cancelled? ==> exists j | 0 <= j < n :: c.world(j).requested)
      && (outcome.TimedOut? ==> exitCode == 124 && Clock(c, n) >= c.startedAt + c.timeout)
      && (outcome.StalledNoEdit? ==> exitCode == 125 && c.limit.Some? && !c.editedBefore)
      && (!outcome.Completed? && !outcome.Failed? ==> EndingAt(c, n).ChildExits? || EndingAt(c, n).Killed?)
  {
    hide Clock, Watched, CauseAt;
    var cause := FirstCause(c, n);
    if cause.Some? {
      CauseStands(c, cause.value, n);
    }
  }

  /** What a cause seen in turn `k` says of every later turn. */
  lemma CauseStands(c: Child, k: nat, n: nat)
    requires k < n && CauseAt(c, k).Some?
    ensures match CauseAt(c, k).value
            case Cancelled => exists j | 0 <= j < n :: c.world(j).requested
            case TimedOut => Clock(c, n) >= c.startedAt + c.timeout
            case StalledNoEdit => c.limit.Some? && !c.editedBefore
            case _ => false
  {
    hide Clock, Watched, CauseAt;
    CauseMeans(c, k);
    ClockRises(c, k, n);
    if Watched(c, 0).edited {
      EditsStay(c, 0, k + 1);
    }
    StartsWatching(c);
  }

  /** The code with which the child itself ended, if it did. */
  function OwnExit(c: Child, n: nat): Option<int> {
    match EndingAt(c, n)
    case ChildExits => c.world(n).exit
    case Killed => Some(c.world(n).killedExit)
    case _ => None
  }

  /** When the codes of the two timed causes name them: 124 means timed out, and 125
      stalled, exactly unless the child itself ended with that code, not for the
      other timed cause. */
  lemma CodesMean(c: Child, n: nat)
    requires IsLast(c, n)
    ensures var (outcome, exitCode) := Result(c, n);
      && (exitCode == 124 <==> outcome.TimedOut? || (!outcome.StalledNoEdit? && OwnExit(c, n) == Some(124)))
      && (exitCode == 125 <==> outcome.StalledNoEdit? || (!outcome.TimedOut? && OwnExit(c, n) == Some(125)))
      && (exitCode == 124 && OwnExit(c, n) != Some(124) ==> Clock(c, n) >= c.startedAt + c.timeout)
      && (exitCode == 125 && OwnExit(c, n) != Some(125) ==> c.limit.Some? && !c.editedBefore)
  {
    hide CauseAt, Clock;
    ResultMeans(c, n);
    CausesAreThree(c, n);
  }

  lemma CausesAreThree(c: Child, n: nat)
    ensures FirstCause(c, n).Some? ==>
      CauseAt(c, FirstCause(c, n).value) in {Some(Cancelled), Some(TimedOut), Some(StalledNoEdit)}
  {
  }

  lemma StartsWatching(c: Child)
    ensures Watched(c, 0).edited == c.editedBefore
  {
  }

  /** From one clock reading to the next at most `turn` passes. */
  ghost predicate TurnsWithin(c: Child, turn: nat) {
    forall k: nat :: c.world(k).delay + POLL <= turn
  }

  /** The loop ends within the timeout, the grace and two turns. */
  lemma EndIsBounded(c: Child, turn: nat, n: nat)
    requires c.timeout > 0 && TurnsWithin(c, turn) && IsLast(c, n)
    ensures c.startedAt <= Clock(c, n) <= c.startedAt + c.timeout + 10_000 + 2 * turn
    ensures EndingAt(c, n).Killed? ==> Clock(c, n) - Clock(c, FirstCause(c, n).value) >= 10_000
  {
    hide Watched, Requested;
    ClockRises(c, n, n);
    assert c.world(n).delay + POLL <= turn;
    if n > 0 {
      assert EndingAt(c, n - 1).GoesOn?;
      match FirstCause(c, n)
      case None =>
        assert CauseAt(c, n - 1).None?;
      case Some(k) =>
        assert c.world(k).delay + POLL <= turn;
        if k > 0 {
          assert CauseAt(c, k - 1).None?;
        }
    }
  }

  /** Heartbeats are at most five seconds and a turn apart. */
  lemma {:induction false} BeatsKeepUp(c: Child, turn: nat, n: nat)
    requires TurnsWithin(c, turn)
    ensures var w := Watched(c, n);
      && w.nextHeartbeat == LastBeat(c.startedAt, w.beats) + HEARTBEAT
      && BeatsWithin(c.startedAt, w.beats, 5_000 + turn)
      && Clock(c, n) - LastBeat(c.startedAt, w.beats) <= 5_000 + turn
  {
    hide BeatsWithin, LastBeat;
    NoBeats(c.startedAt, HEARTBEAT + turn);
    assert c.world(n).delay + POLL <= turn;
    if n > 0 {
      BeatsKeepUp(c, turn, n - 1);
      var w := Watched(c, n - 1);
      OneMoreBeat(c.startedAt, w.beats, Clock(c, n - 1), HEARTBEAT + turn);
    }
  }

  lemma TurnReads(c: Child, k: nat)
    ensures Clock(c, k) == (if k == 0 then c.startedAt else Clock(c, k - 1) + POLL) + c.world(k).delay
    ensures Watched(c, k + 1) == Probed(Watched(c, k), c.world(k), Clock(c, k))
    ensures Requested(c, k) == (c.world(k).requested || (k > 0 && Requested(c, k - 1)))
    ensures FirstCause(c, k + 1) ==
      if FirstCause(c, k).Some? then FirstCause(c, k) else if CauseAt(c, k).Some? then Some(k) else None
    ensures CauseAt(c, k) ==
      if Requested(c, k) then Some(Cancelled)
      else if Clock(c, k) >= c.startedAt + c.timeout then Some(TimedOut)
      else if c.limit.Some? && !Watched(c, k + 1).edited && Watched(c, k + 1).toolCalls >= c.limit.value then Some(StalledNoEdit)
      else None
  {
  }

  // ----- the loop as it runs -----

  datatype Report = Report(outcome: Outcome, exitCode: int, edited: bool, toolCalls: nat, turn: nat, stoppedAt: int, beats: seq<int>)

  /** The loop ends whatever the child does and however long its turns take; the
      times are bounded when `turn` bounds every turn. */
  method RunChild(c: Child, ghost turn: nat) returns (r: Report)
    requires c.timeout > 0
    ensures IsLast(c, r.turn) && (r.outcome, r.exitCode) == Result(c, r.turn)
    ensures r.stoppedAt == Clock(c, r.turn)
    ensures r.beats == (if EndingAt(c, r.turn).ChildExits? then Watched(c, r.turn) else Watched(c, r.turn + 1)).beats
    ensures (r.edited, r.toolCalls) ==
            var w := if EndingAt(c, r.turn).ChildExits? then Watched(c, r.turn) else Watched(c, r.turn + 1);
            (w.edited, w.toolCalls)
    ensures r.exitCode == 0 <==> r.outcome.Completed?
    ensures TurnsWithin(c, turn) ==> r.stoppedAt <= c.startedAt + c.timeout + KILL_GRACE + 2 * turn
    ensures TurnsWithin(c, turn) ==> BeatsWithin(c.startedAt, r.beats, HEARTBEAT + turn)
  {
    hide BeatsWithin, LastBeat, Requested, Clock, Watched, CauseAt, FirstCause;
    NothingYet(c);
    var edited, toolCalls: nat := c.editedBefore, c.toolCallsBefore;
    var beats: seq<int> := [];
    var now, nextHeartbeat, nextEditProbe := c.startedAt, c.startedAt + HEARTBEAT, c.startedAt;
    var requested := false;
    var cause: Option<Outcome> := None;
    var terminatingAt: Option<int> := None;
    var k: nat := 0;
    while true
      invariant forall j | 0 <= j < k :: EndingAt(c, j).GoesOn?
      invariant now == if k == 0 then c.startedAt else Clock(c, k - 1)
      invariant Watched(c, k) == Watch(nextHeartbeat, nextEditProbe, edited, toolCalls, beats)
      invariant requested == (k > 0 && Requested(c, k - 1))
      invariant cause.Some? <==> FirstCause(c, k).Some?
      invariant terminatingAt.Some? <==> FirstCause(c, k).Some?
      invariant FirstCause(c, k).Some? ==>
                  cause == CauseAt(c, FirstCause(c, k).value) && terminatingAt.value == Clock(c, FirstCause(c, k).value)
      invariant cause.None? ==> now < c.startedAt + c.timeout
      invariant cause.Some? ==> now < terminatingAt.value + KILL_GRACE
      decreases if cause.None? then 1 else 0,
                (if cause.None? then c.startedAt + c.timeout else terminatingAt.value + KILL_GRACE) - now,
                if k == 0 then 1 else 0
    {
      var t := c.world(k);
      now := now + t.delay + (if k == 0 then 0 else POLL);
      requested := requested || t.requested;
      EndIsKnown(c, turn, k);
      TurnReads(c, k);
      if t.exit.Some? {
        var outcome := if cause.Some? then cause.value else if t.exit.value == 0 then Completed else Failed;
        return Report(outcome, ExitCode(outcome, t.exit.value), edited, toolCalls, k, now, beats);
      }
      if now >= nextHeartbeat {
        if now >= nextEditProbe {
          nextEditProbe := now + EDIT_PROBE;
          if !edited {
            edited := t.editFound;
          }
          toolCalls := t.toolCallsFound;
        }
        beats := beats + [now];
        nextHeartbeat := now + HEARTBEAT;
      }
      if requested && cause.None? {
        cause, terminatingAt := Some(Cancelled), Some(now);
        if t.signalFails {
          return Report(Failed, 70, edited, toolCalls, k, now, beats);
        }
      } else if now >= c.startedAt + c.timeout && cause.None? {
        cause, terminatingAt := Some(TimedOut), Some(now);
        if t.signalFails {
          return Report(Failed, 70, edited, toolCalls, k, now, beats);
        }
      } else if c.limit.Some? && !edited && toolCalls >= c.limit.value && cause.None? {
        cause, terminatingAt := Some(StalledNoEdit), Some(now);
        if t.signalFails {
          return Report(Failed, 70, edited, toolCalls, k, now, beats);
        }
      } else if cause.Some? && now - terminatingAt.value >= KILL_GRACE {
        return Report(cause.value, ExitCode(cause.value, t.killedExit), edited, toolCalls, k, now, beats);
      }
      k := k + 1;
    }
  }

  lemma NothingYet(c: Child)
    ensures FirstCause(c, 0).None?
    ensures Watched(c, 0) == Watch(c.startedAt + HEARTBEAT, c.startedAt, c.editedBefore, c.toolCallsBefore, [])
  {
  }

  lemma EndIsKnown(c: Child, turn: nat, n: nat)
    requires c.timeout > 0 && forall j | 0 <= j < n :: EndingAt(c, j).GoesOn?
    ensures !EndingAt(c, n).GoesOn? ==> (Result(c, n).1 == 0 <==> Result(c, n).0.Completed?)
    ensures !EndingAt(c, n).GoesOn? && TurnsWithin(c, turn) ==>
      Clock(c, n) <= c.startedAt + c.timeout + KILL_GRACE + 2 * turn
    ensures TurnsWithin(c, turn) ==>
      && BeatsWithin(c.startedAt, Watched(c, n).beats, HEARTBEAT + turn)
      && BeatsWithin(c.startedAt, Watched(c, n + 1).beats, HEARTBEAT + turn)
  {
    hide EndingAt, Result, Clock, Watched, BeatsWithin, LastBeat, TurnsWithin;
    if TurnsWithin(c, turn) {
      BeatsKeepUp(c, turn, n);
      BeatsKeepUp(c, turn, n + 1);
    }
    if !EndingAt(c, n).GoesOn? {
      ResultMeans(c, n);
      if TurnsWithin(c, turn) {
        EndIsBounded(c, turn, n);
      }
    }
  }
}
