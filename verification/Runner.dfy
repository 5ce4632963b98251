/** The execution runner's supervision loop, against any child process, any
    workflow service and any clock that does not go back. */
module Runner {
  import opened Options
  import opened Heartbeats

  datatype WorkflowStatus =
    AwaitingStart | Snoozed | Queued | Running | AwaitingReview | WorkflowCompleted | WorkflowCancelled | Parked
  datatype Workflow = Workflow(task: nat, status: WorkflowStatus, version: nat, lastResult: Option<nat>)

  datatype Outcome =
    Recorded | Released | ClaimLost | LeaseFailed | ContextExhausted | ProcessExit | Timeout | Interrupted
  datatype RunResult = RunResult(outcome: Outcome, exitCode: int)

  const NO_PROGRESS_EXIT_CODE := 70
  const TIMEOUT_EXIT_CODE := 124
  const CONTEXT_EXHAUSTED_EXIT_CODE := 138

  /** The profile's times and the poll interval, in the clock's own unit. */
  datatype Timing = Timing(timeout: nat, heartbeat: nat, poll: nat)

  datatype Interruption = NoInterruption | Signal(signum: nat) | Breaks
  datatype Renewal = Renewed | Refused | Raised

  /** Everything the outside world does in one turn of the loop. A signal or an
      unexpected error during the turn counts from its start. */
  datatype Turn = Turn(
    interruption: Interruption,
    delay: nat,
    first: Option<Workflow>,
    renewal: Renewal,
    refusalFound: bool,
    second: Option<Workflow>,
    exit: Option<int>,
    third: Option<Workflow>,
    sessionKnown: bool,
    spawns: bool,
    textToolCall: bool,
    windowExhausted: bool,
    failApplied: bool,
    afterFail: Option<Option<Workflow>>)

  // ----- one turn -----

  /** `_terminal_result`. */
  function TerminalResult(initial: Workflow, current: Option<Workflow>, task: nat): Option<Outcome> {
    if current.None? || current.value.task != task then Some(ClaimLost)
    else
      var w := current.value;
      if w.status.Running? && w.version == initial.version then None
      else if w.lastResult.Some? && w.lastResult != initial.lastResult
              && (w.status.AwaitingReview? || w.status.WorkflowCompleted? || w.status.Queued?) then Some(Recorded)
      else if w.status.Queued? then Some(Released)
      else Some(ClaimLost)
  }

  predicate Succeeds(outcome: Outcome) {
    outcome.Recorded? || outcome.Released?
  }

  function Ended(outcome: Outcome): RunResult {
    RunResult(outcome, if Succeeds(outcome) then 0 else NO_PROGRESS_EXIT_CODE)
  }

  /** `_failure_result`: a failure that the service does not take is checked
      against what the workflow has become. */
  function FailureResult(initial: Workflow, task: nat, t: Turn, outcome: Outcome, exitCode: int): RunResult {
    if t.failApplied then RunResult(outcome, exitCode)
    else
      var terminal := if t.afterFail.None? then None else TerminalResult(initial, t.afterFail.value, task);
      if terminal.Some? && Succeeds(terminal.value) then Ended(terminal.value) else Ended(ClaimLost)
  }

  function Normalized(exit: int): int {
    if exit < 0 then 128 - exit else if exit == 0 then NO_PROGRESS_EXIT_CODE else exit
  }

  /** How a turn leaves the loop: it ends the run, launches a corrective process,
      or sleeps; `renewed` tells whether the lease was renewed on the way. */
  datatype Decision = Stop(result: Option<RunResult>, renewed: bool) | Correct(renewed: bool) | Sleep(renewed: bool)

  /** What a turn finds before it looks at the loop: whether a heartbeat is due,
      whether the deadline has come, and whether a correction is still allowed. */
  datatype Moment = Moment(due: bool, late: bool, mayCorrect: bool)

  function Decide(initial: Workflow, task: nat, t: Turn, m: Moment): Decision {
    var first, second := TerminalResult(initial, t.first, task), TerminalResult(initial, t.second, task);
    if t.interruption.Signal? then
      Stop(Some(FailureResult(initial, task, t, Interrupted, 128 + t.interruption.signum)), false)
    else if t.interruption.Breaks? then Stop(None, false)
    else if first.Some? then Stop(Some(Ended(first.value)), false)
    else if m.due && t.renewal.Raised? then Stop(Some(Ended(LeaseFailed)), false)
    else if m.due && t.renewal.Refused? then
      Stop(Some(Ended(if second.Some? then second.value else ClaimLost)), false)
    else if m.due && t.refusalFound && second.None? then
      Stop(Some(FailureResult(initial, task, t, ContextExhausted, CONTEXT_EXHAUSTED_EXIT_CODE)), true)
    else if t.exit.Some? then
      var third := TerminalResult(initial, t.third, task);
      if third.Some? then Stop(Some(Ended(third.value)), m.due)
      else if m.mayCorrect && t.sessionKnown && t.spawns then Correct(m.due)
      else Stop(Some(FailureResult(initial, task, t, ProcessExit, Normalized(t.exit.value))), m.due)
    else if m.late && t.windowExhausted then
      Stop(Some(FailureResult(initial, task, t, ContextExhausted, CONTEXT_EXHAUSTED_EXIT_CODE)), m.due)
    else if m.late then Stop(Some(FailureResult(initial, task, t, Timeout, TIMEOUT_EXIT_CODE)), m.due)
    else Sleep(m.due)
  }

  /** The body of the loop, in its own order. */
  method TakeTurn(t: Turn, initial: Workflow, task: nat, m: Moment) returns (d: Decision)
    ensures d == Decide(initial, task, t, m)
  {
    hide TerminalResult, FailureResult, Ended, Normalized;
    if t.interruption.Signal? {
      return Stop(Some(FailureResult(initial, task, t, Interrupted, 128 + t.interruption.signum)), false);
    }
    if t.interruption.Breaks? {
      return Stop(None, false);
    }
    var terminal := TerminalResult(initial, t.first, task);
    if terminal.Some? {
      return Stop(Some(Ended(terminal.value)), false);
    }
    if m.due {
      if t.renewal.Raised? {
        return Stop(Some(Ended(LeaseFailed)), false);
      }
      if t.renewal.Refused? {
        terminal := TerminalResult(initial, t.second, task);
        return Stop(Some(Ended(if terminal.Some? then terminal.value else ClaimLost)), false);
      }
      if t.refusalFound {
        terminal := TerminalResult(initial, t.second, task);
        if terminal.None? {
          return Stop(Some(FailureResult(initial, task, t, ContextExhausted, CONTEXT_EXHAUSTED_EXIT_CODE)), true);
        }
      }
    }
    if t.exit.Some? {
      terminal := TerminalResult(initial, t.third, task);
      if terminal.Some? {
        return Stop(Some(Ended(terminal.value)), m.due);
      }
      if m.mayCorrect && t.sessionKnown && t.spawns {
        return Correct(m.due);
      }
      return Stop(Some(FailureResult(initial, task, t, ProcessExit, Normalized(t.exit.value))), m.due);
    }
    if m.late {
      var outcome := if t.windowExhausted then ContextExhausted else Timeout;
      var code := if t.windowExhausted then CONTEXT_EXHAUSTED_EXIT_CODE else TIMEOUT_EXIT_CODE;
      return Stop(Some(FailureResult(initial, task, t, outcome, code)), m.due);
    }
    return Sleep(m.due);
  }

  /** The workflow is seen to be still this run's, and its lease was kept up. */
  predicate StillHeld(initial: Workflow, task: nat, t: Turn, m: Moment) {
    && t.interruption.NoInterruption? && TerminalResult(initial, t.first, task).None?
    && (m.due ==> t.renewal.Renewed? && (t.refusalFound ==> TerminalResult(initial, t.second, task).Some?))
  }

  /** A view of the workflow that the turn takes. */
  predicate Views(t: Turn, m: Moment, view: Option<Workflow>) {
    || view == t.first
    || (view == t.second && m.due && t.renewal.Refused?)
    || (view == t.third && t.exit.Some?)
    || (t.afterFail == Some(view) && !t.failApplied)
  }

  /** The lease was renewed, the refusal is in the transcript, and the workflow is
      still this run's. */
  predicate RefusalStops(initial: Workflow, task: nat, t: Turn, m: Moment) {
    m.due && t.renewal.Renewed? && t.refusalFound && TerminalResult(initial, t.second, task).None?
  }

  /** Something the run is to be failed for. */
  predicate Fails(initial: Workflow, task: nat, t: Turn, m: Moment) {
    || t.interruption.Signal?
    || RefusalStops(initial, task, t, m)
    || (t.exit.Some? && !(m.mayCorrect && t.sessionKnown && t.spawns))
    || (t.exit.None? && m.late)
  }

  /** What a result of the run says about the turn that ended it. */
  ghost predicate Justified(initial: Workflow, task: nat, t: Turn, m: Moment, r: RunResult) {
    && (r.exitCode == 0 <==> Succeeds(r.outcome))
    && match r.outcome
       case Recorded => exists view :: Views(t, m, view) && TerminalResult(initial, view, task) == Some(Recorded)
       case Released => exists view :: Views(t, m, view) && TerminalResult(initial, view, task) == Some(Released)
       case ClaimLost =>
         && r.exitCode == NO_PROGRESS_EXIT_CODE
         && (|| (exists view :: Views(t, m, view) && TerminalResult(initial, view, task) == Some(ClaimLost))
             || (m.due && t.renewal.Refused?)
             || (!t.failApplied && Fails(initial, task, t, m)))
       case LeaseFailed => r.exitCode == NO_PROGRESS_EXIT_CODE && m.due && t.renewal.Raised?
       case ContextExhausted =>
         && r.exitCode == CONTEXT_EXHAUSTED_EXIT_CODE && t.failApplied
         && (RefusalStops(initial, task, t, m) || (m.late && t.exit.None? && t.windowExhausted))
       case Timeout =>
         r.exitCode == TIMEOUT_EXIT_CODE && t.failApplied && m.late && t.exit.None? && !t.windowExhausted
       case ProcessExit =>
         && t.failApplied && t.exit.Some? && r.exitCode == Normalized(t.exit.value)
         && !(m.mayCorrect && t.sessionKnown && t.spawns)
       case Interrupted => t.failApplied && t.interruption.Signal? && r.exitCode == 128 + t.interruption.signum
  }

  lemma TerminalIsJustified(initial: Workflow, task: nat, t: Turn, m: Moment, view: Option<Workflow>)
    requires Views(t, m, view) && TerminalResult(initial, view, task).Some?
    ensures Justified(initial, task, t, m, Ended(TerminalResult(initial, view, task).value))
  {
  }

  lemma FailureIsJustified(initial: Workflow, task: nat, t: Turn, m: Moment, outcome: Outcome, exitCode: int)
    requires t.failApplied ==> Justified(initial, task, t, m, RunResult(outcome, exitCode))
    requires Fails(initial, task, t, m)
    ensures Justified(initial, task, t, m, FailureResult(initial, task, t, outcome, exitCode))
  {
    if !t.failApplied && t.afterFail.Some? {
      assert Views(t, m, t.afterFail.value);
    }
  }

  lemma PlainCausesAreJustified(initial: Workflow, task: nat, t: Turn, m: Moment)
    ensures m.due && t.renewal.Raised? ==> Justified(initial, task, t, m, Ended(LeaseFailed))
    ensures m.due && t.renewal.Refused? ==> Justified(initial, task, t, m, Ended(ClaimLost))
    ensures t.failApplied ==>
      && (t.interruption.Signal? ==>
            Justified(initial, task, t, m, RunResult(Interrupted, 128 + t.interruption.signum)))
      && (RefusalStops(initial, task, t, m) || (m.late && t.exit.None? && t.windowExhausted) ==>
            Justified(initial, task, t, m, RunResult(ContextExhausted, CONTEXT_EXHAUSTED_EXIT_CODE)))
      && (t.exit.Some? && !(m.mayCorrect && t.sessionKnown && t.spawns) ==>
            Justified(initial, task, t, m, RunResult(ProcessExit, Normalized(t.exit.value))))
      && (t.exit.None? && m.late && !t.windowExhausted ==>
            Justified(initial, task, t, m, RunResult(Timeout, TIMEOUT_EXIT_CODE)))
  {
  }

  /** Whatever ends a run, its result says what the last turn saw. */
  lemma ResultsAreJustified(initial: Workflow, task: nat, t: Turn, m: Moment)
    ensures var d := Decide(initial, task, t, m);
      d.Stop? && d.result.Some? ==> Justified(initial, task, t, m, d.result.value)
  {
    hide TerminalResult, FailureResult, Ended, Normalized, Justified;
    var d := Decide(initial, task, t, m);
    if d.Stop? && d.result.Some? {
      PlainCausesAreJustified(initial, task, t, m);
      if t.interruption.Signal? {
        FailureIsJustified(initial, task, t, m, Interrupted, 128 + t.interruption.signum);
      } else if TerminalResult(initial, t.first, task).Some? {
        TerminalIsJustified(initial, task, t, m, t.first);
      } else if m.due && t.renewal.Refused? {
        if TerminalResult(initial, t.second, task).Some? {
          TerminalIsJustified(initial, task, t, m, t.second);
        }
      } else if m.due && t.renewal.Renewed? && t.refusalFound && TerminalResult(initial, t.second, task).None? {
        FailureIsJustified(initial, task, t, m, ContextExhausted, CONTEXT_EXHAUSTED_EXIT_CODE);
      } else if t.exit.Some? && !(m.due && t.renewal.Raised?) {
        if TerminalResult(initial, t.third, task).Some? {
          TerminalIsJustified(initial, task, t, m, t.third);
        } else {
          FailureIsJustified(initial, task, t, m, ProcessExit, Normalized(t.exit.value));
        }
      } else if !(m.due && t.renewal.Raised?) {
        if t.windowExhausted {
          FailureIsJustified(initial, task, t, m, ContextExhausted, CONTEXT_EXHAUSTED_EXIT_CODE);
        } else {
          FailureIsJustified(initial, task, t, m, Timeout, TIMEOUT_EXIT_CODE);
        }
      }
    }
  }

  /** Exactly when a turn goes on, and how. */
  lemma GoesOnIff(initial: Workflow, task: nat, t: Turn, m: Moment)
    ensures var d := Decide(initial, task, t, m);
      && (d.Sleep? <==> StillHeld(initial, task, t, m) && t.exit.None? && !m.late)
      && (d.Correct? <==>
            && StillHeld(initial, task, t, m) && t.exit.Some? && TerminalResult(initial, t.third, task).None?
            && m.mayCorrect && t.sessionKnown && t.spawns)
      && (!d.Stop? ==> d.renewed == m.due) && (d.renewed ==> m.due)
      && (d.Stop? && d.result.None? <==> t.interruption.Breaks?)
  {
    hide TerminalResult;
  }

  /** A result that was not there at the start, where a run may leave its workflow. */
  predicate NewResult(initial: Workflow, w: Workflow) {
    w.lastResult.Some? && w.lastResult != initial.lastResult
    && (w.status.AwaitingReview? || w.status.WorkflowCompleted? || w.status.Queued?)
  }

  /** What a view of the workflow says about a run, exactly: it goes on while the
      workflow runs at its version, it recorded a new result, it was released to the
      queue without one, and in every other case the claim is lost. */
  lemma TerminalMeans(initial: Workflow, current: Option<Workflow>, task: nat)
    ensures var r := TerminalResult(initial, current, task);
      var ours := current.Some? && current.value.task == task;
      && (r == None <==> ours && current.value.status.Running? && current.value.version == initial.version)
      && (r == Some(Recorded) <==> ours && NewResult(initial, current.value))
      && (r == Some(Released) <==>
            ours && current.value.status.Queued?
            && (current.value.lastResult.None? || current.value.lastResult == initial.lastResult))
      && (r == Some(ClaimLost) <==>
            !ours || !(|| (current.value.status.Running? && current.value.version == initial.version)
                       || current.value.status.Queued?
                       || NewResult(initial, current.value)))
  {
  }

  /** Every case of a turn, in the order in which they are tried, with its exit code;
      a failure that the service does not take is decided by the view after it. */
  lemma DecisionTable(initial: Workflow, task: nat, t: Turn, m: Moment)
    ensures var d := Decide(initial, task, t, m);
      var first, second, third :=
        TerminalResult(initial, t.first, task), TerminalResult(initial, t.second, task), TerminalResult(initial, t.third, task);
      var calm := t.interruption.NoInterruption?;
      var held := StillHeld(initial, task, t, m);
      && (t.interruption.Signal? ==> d.Stop? && d.result == Some(Failed(initial, task, t, Interrupted, 128 + t.interruption.signum)))
      && (t.interruption.Breaks? ==> d.Stop? && d.result == None)
      && (calm && first.Some? ==> d.Stop? && d.result == Some(Over(first.value)))
      && (calm && first.None? && m.due && t.renewal.Raised? ==> d.Stop? && d.result == Some(RunResult(LeaseFailed, 70)))
      && (calm && first.None? && m.due && t.renewal.Refused? ==>
            d.Stop? && d.result == Some(if second.Some? then Over(second.value) else RunResult(ClaimLost, 70)))
      && (calm && first.None? && m.due && t.renewal.Renewed? && t.refusalFound && second.None? ==>
            d.Stop? && d.result == Some(Failed(initial, task, t, ContextExhausted, 138)))
      && (held && t.exit.Some? && third.Some? ==> d.Stop? && d.result == Some(Over(third.value)))
      && (held && t.exit.Some? && third.None? && !(m.mayCorrect && t.sessionKnown && t.spawns) ==>
            d.Stop? && d.result == Some(Failed(initial, task, t, ProcessExit, ShellCode(t.exit.value))))
      && (held && t.exit.None? && m.late ==>
            d.Stop? && d.result == Some(if t.windowExhausted then Failed(initial, task, t, ContextExhausted, 138)
                                        else Failed(initial, task, t, Timeout, 124)))
  {
    hide TerminalResult, FailureResult, Failed;
    forall outcome, exitCode
      ensures FailureResult(initial, task, t, outcome, exitCode) == Failed(initial, task, t, outcome, exitCode)
    {
      FailuresMean(initial, task, t, outcome, exitCode);
    }
  }

  lemma FailuresMean(initial: Workflow, task: nat, t: Turn, outcome: Outcome, exitCode: int)
    ensures FailureResult(initial, task, t, outcome, exitCode) == Failed(initial, task, t, outcome, exitCode)
  {
  }

  /** The result for a workflow that is over. */
  function Over(outcome: Outcome): RunResult {
    RunResult(outcome, if outcome == Recorded || outcome == Released then 0 else 70)
  }

  /** The result for a failure: its own if the service took it, else a success that
      the workflow turns out to show, else a lost claim. */
  function Failed(initial: Workflow, task: nat, t: Turn, outcome: Outcome, exitCode: int): RunResult {
    if t.failApplied then RunResult(outcome, exitCode)
    else if t.afterFail.Some? && t.afterFail.value.Some? && t.afterFail.value.value.task == task then
      var w := t.afterFail.value.value;
      if w.status.Running? && w.version == initial.version then RunResult(ClaimLost, 70)
      else if NewResult(initial, w) then RunResult(Recorded, 0)
      else if w.status.Queued? then RunResult(Released, 0)
      else RunResult(ClaimLost, 70)
    else RunResult(ClaimLost, 70)
  }

  /** A signal's exit as a shell reports it, and never 0. */
  function ShellCode(exit: int): int {
    if exit < 0 then 128 - exit else if exit > 0 then exit else 70
  }

  // ----- the loop, turn by turn -----

  /** `world(k)` is what the outside does in turn `k`. */
  datatype Run = Run(world: nat -> Turn, startedAt: int, initial: Workflow, task: nat, times: Timing)

  /** The loop's variables before a turn. */
  datatype Loop = Loop(clock: int, nextHeartbeat: int, attempts: nat, hadText: bool, slept: bool)

  function Now(r: Run, k: nat): int
    decreases k, 1
  {
    At(r, k).clock + r.world(k).delay + (if At(r, k).slept then r.times.poll else 0)
  }

  function MomentOf(r: Run, k: nat): Moment
    decreases k, 3
  {
    var l := At(r, k);
    Moment(Now(r, k) >= l.nextHeartbeat, Late(r, k), l.attempts == 0 || (l.attempts == 1 && l.hadText))
  }

  /** The deadline has come when turn `k` reads the clock. */
  predicate Late(r: Run, k: nat)
    decreases k, 2
  {
    Now(r, k) - r.startedAt >= r.times.timeout
  }

  function DecisionAt(r: Run, k: nat): Decision
    decreases k, 4
  {
    Decide(r.initial, r.task, r.world(k), MomentOf(r, k))
  }

  function At(r: Run, k: nat): Loop
    decreases k, 0
  {
    if k == 0 then Loop(r.startedAt, r.startedAt + r.times.heartbeat, 0, false, false)
    else
      var l, d, now := At(r, k - 1), DecisionAt(r, k - 1), Now(r, k - 1);
      Loop(now,
           if d.renewed then now + r.times.heartbeat else l.nextHeartbeat,
           if d.Correct? then l.attempts + 1 else l.attempts,
           if d.Correct? then r.world(k - 1).textToolCall else l.hadText,
           d.Sleep?)
  }

  lemma TurnFollows(r: Run, k: nat)
    ensures var l, d := At(r, k + 1), DecisionAt(r, k);
      && l.clock == Now(r, k) && l.slept == d.Sleep?
      && l.attempts == At(r, k).attempts + (if d.Correct? then 1 else 0)
      && (d.Sleep? ==> !Late(r, k)) && (d.Correct? ==> At(r, k).attempts <= 1)
  {
    hide Decide;
    GoesOnIff(r.initial, r.task, r.world(k), MomentOf(r, k));
  }

  lemma TurnReads(r: Run, k: nat, l: Loop)
    requires At(r, k) == l
    ensures Now(r, k) == l.clock + r.world(k).delay + (if l.slept then r.times.poll else 0)
    ensures MomentOf(r, k) == Moment(Now(r, k) >= l.nextHeartbeat, Now(r, k) - r.startedAt >= r.times.timeout,
                                     l.attempts == 0 || (l.attempts == 1 && l.hadText))
    ensures DecisionAt(r, k) == Decide(r.initial, r.task, r.world(k), MomentOf(r, k))
  {
  }

  /** No turn before `n` ends the run. */
  predicate GoesOn(r: Run, n: nat) {
    forall k | 0 <= k < n :: !DecisionAt(r, k).Stop?
  }

  /** Turn `n` ends the run. */
  predicate IsLast(r: Run, n: nat) {
    GoesOn(r, n) && DecisionAt(r, n).Stop?
  }

  /** How many of the turns before `n` launched a corrective process. */
  function Corrections(r: Run, n: nat): nat {
    if n == 0 then 0 else Corrections(r, n - 1) + (if DecisionAt(r, n - 1).Correct? then 1 else 0)
  }

  /** When the turns before `n` renewed the lease. */
  function Renewals(r: Run, n: nat): seq<int> {
    if n == 0 then []
    else Renewals(r, n - 1) + (if DecisionAt(r, n - 1).renewed then [Now(r, n - 1)] else [])
  }

  /** At most two corrections, the second only if the transcript held a textual
      call when the first was launched. */
  lemma {:induction false} CorrectionsAreFew(r: Run, n: nat)
    ensures At(r, n).attempts == Corrections(r, n) <= 2
    ensures At(r, n).hadText ==> exists k | 0 <= k < n :: DecisionAt(r, k).Correct? && r.world(k).textToolCall
    ensures Corrections(r, n) == 2 ==> exists k | 0 <= k < n :: DecisionAt(r, k).Correct? && r.world(k).textToolCall
  {
    hide Decide, Now;
    if n > 0 {
      CorrectionsAreFew(r, n - 1);
      GoesOnIff(r.initial, r.task, r.world(n - 1), MomentOf(r, n - 1));
      if DecisionAt(r, n - 1).Correct? && r.world(n - 1).textToolCall {
        assert 0 <= n - 1 < n;
      }
    }
  }

  /** A corrective process is allowed exactly as the first one, or as the second if
      the transcript held a textual call when the first was launched. */
  lemma MayCorrectIff(r: Run, n: nat)
    ensures MomentOf(r, n).mayCorrect <==>
      || Corrections(r, n) == 0
      || (Corrections(r, n) == 1 && exists k | 0 <= k < n :: DecisionAt(r, k).Correct? && r.world(k).textToolCall)
  {
    hide Decide, Now;
    CorrectionsAreFew(r, n);
    OneCorrection(r, n);
  }

  lemma {:induction false} OneCorrection(r: Run, n: nat)
    ensures Corrections(r, n) == 0 ==> forall k | 0 <= k < n :: !DecisionAt(r, k).Correct?
    ensures Corrections(r, n) == 1 ==>
      forall k | 0 <= k < n && DecisionAt(r, k).Correct? :: r.world(k).textToolCall == At(r, n).hadText
  {
    hide Decide, Now, DecisionAt;
    if n > 0 {
      OneCorrection(r, n - 1);
      TurnKeepsText(r, n - 1);
    }
  }

  lemma TurnKeepsText(r: Run, k: nat)
    ensures At(r, k + 1).hadText == if DecisionAt(r, k).Correct? then r.world(k).textToolCall else At(r, k).hadText
  {
    hide Decide;
  }

  /** Time that may pass after the deadline: one turn for each launch. */
  function Overrun(launches: nat, turn: nat): nat {
    if launches == 0 then 0 else if launches == 1 then turn else if launches == 2 then 2 * turn else 3 * turn
  }

  /** From one clock reading to the next at most `turn` passes. */
  ghost predicate TurnsWithin(r: Run, turn: nat) {
    forall k: nat :: r.world(k).delay + r.times.poll <= turn
  }

  predicate Timed(times: Timing) {
    times.timeout > 0 && times.heartbeat > 0 && times.poll > 0
  }

  lemma {:induction false} ClockIsBounded(r: Run, turn: nat, n: nat)
    requires Timed(r.times) && TurnsWithin(r, turn) && GoesOn(r, n)
    ensures r.startedAt <= At(r, n).clock < r.startedAt + r.times.timeout + Overrun(At(r, n).attempts, turn)
    ensures At(r, n).slept ==> At(r, n).clock < r.startedAt + r.times.timeout
    ensures r.startedAt <= Now(r, n) < r.startedAt + r.times.timeout + Overrun(At(r, n).attempts + 1, turn)
  {
    hide Decide, DecisionAt;
    assert r.world(n).delay + r.times.poll <= turn;
    CorrectionsAreFew(r, n);
    if n > 0 {
      assert !DecisionAt(r, n - 1).Stop?;
      ClockIsBounded(r, turn, n - 1);
      TurnFollows(r, n - 1);
    }
  }

  /** Renewals are at most a heartbeat and a turn apart, and so is any turn from
      the last of them. */
  lemma {:induction false} RenewalsKeepUp(r: Run, turn: nat, n: nat)
    requires Timed(r.times) && TurnsWithin(r, turn) && GoesOn(r, n)
    ensures At(r, n).clock < At(r, n).nextHeartbeat == LastBeat(r.startedAt, Renewals(r, n)) + r.times.heartbeat
    ensures BeatsWithin(r.startedAt, Renewals(r, n), r.times.heartbeat + turn)
    ensures BeatsWithin(r.startedAt, Renewals(r, n + 1), r.times.heartbeat + turn)
    ensures Now(r, n) - LastBeat(r.startedAt, Renewals(r, n + 1)) <= r.times.heartbeat + turn
  {
    hide Decide, BeatsWithin, LastBeat;
    assert r.world(n).delay + r.times.poll <= turn;
    NoBeats(r.startedAt, r.times.heartbeat + turn);
    if n > 0 {
      assert !DecisionAt(r, n - 1).Stop?;
      RenewalsKeepUp(r, turn, n - 1);
      GoesOnIff(r.initial, r.task, r.world(n - 1), MomentOf(r, n - 1));
      if DecisionAt(r, n - 1).renewed {
        RenewalAdded(r, turn, n - 1);
      } else {
        assert Renewals(r, n) == Renewals(r, n - 1);
      }
    }
    if DecisionAt(r, n).renewed {
      RenewalAdded(r, turn, n);
    } else {
      assert Renewals(r, n + 1) == Renewals(r, n);
    }
  }

  lemma RenewalAdded(r: Run, turn: nat, n: nat)
    requires r.world(n).delay + r.times.poll <= turn && DecisionAt(r, n).renewed
    requires At(r, n).clock < LastBeat(r.startedAt, Renewals(r, n)) + r.times.heartbeat
    requires BeatsWithin(r.startedAt, Renewals(r, n), r.times.heartbeat + turn)
    ensures BeatsWithin(r.startedAt, Renewals(r, n + 1), r.times.heartbeat + turn)
    ensures LastBeat(r.startedAt, Renewals(r, n + 1)) == Now(r, n)
  {
    hide DecisionAt, BeatsWithin, LastBeat, At;
    OneMoreBeat(r.startedAt, Renewals(r, n), Now(r, n), r.times.heartbeat + turn);
  }

  // ----- success -----

  /** In whatever turn a run that has gone on so far is first seen to have a new
      result, or to be back in the queue without one, it ends there with exit code 0
      as recorded, or as released. */
  lemma SuccessIsReported(r: Run, n: nat)
    requires GoesOn(r, n) && r.world(n).interruption.NoInterruption?
    requires r.world(n).first.Some? && r.world(n).first.value.task == r.task
    ensures NewResult(r.initial, r.world(n).first.value) ==>
      IsLast(r, n) && DecisionAt(r, n).result == Some(RunResult(Recorded, 0))
    ensures !NewResult(r.initial, r.world(n).first.value) && r.world(n).first.value.status.Queued? ==>
      IsLast(r, n) && DecisionAt(r, n).result == Some(RunResult(Released, 0))
  {
    hide TerminalResult, Decide, MomentOf;
    TerminalMeans(r.initial, r.world(n).first, r.task);
    DecisionTable(r.initial, r.task, r.world(n), MomentOf(r, n));
  }

  // ----- the deadline -----

  /** The branch that launches a corrective process is open in turn `k`. */
  predicate MayRelaunch(r: Run, k: nat) {
    var t, m := r.world(k), MomentOf(r, k);
    t.exit.Some? && TerminalResult(r.initial, t.third, r.task).None? && m.mayCorrect && t.sessionKnown && t.spawns
  }

  /** A run goes on past its deadline exactly when the child exits at or after it
      and a corrective process is launched; every turn before the last that is
      late launches one. */
  lemma OutlastsIff(r: Run, n: nat)
    requires IsLast(r, n)
    ensures (exists k | 0 <= k < n :: Late(r, k)) <==> (exists k | 0 <= k < n :: Late(r, k) && MayRelaunch(r, k))
    ensures forall k | 0 <= k < n && Late(r, k) :: DecisionAt(r, k).Correct? && MayRelaunch(r, k)
  {
    hide Decide, TerminalResult, Now, At;
    forall k | 0 <= k < n && Late(r, k) ensures DecisionAt(r, k).Correct? && MayRelaunch(r, k) {
      assert !DecisionAt(r, k).Stop?;
      GoesOnIff(r.initial, r.task, r.world(k), MomentOf(r, k));
    }
  }

  const HELD: Workflow := Workflow(0, Running, 1, None)

  /** The first child exits when the deadline is past, the second as long after. */
  function ExitsLate(k: nat): Turn {
    Turn(NoInterruption, 2_700, Some(HELD), Renewed, false, Some(HELD), Some(1), Some(HELD), k == 0, true, false, false,
         true, None)
  }

  /** A run that outlasts its deadline, with the times of the built-in profile in
      seconds: it ends at twice its timeout. */
  lemma ARunMayOutlast()
    ensures var r := Run(ExitsLate, 0, HELD, 0, Timing(2_700, 60, 1));
      && IsLast(r, 1) && Late(r, 0) && DecisionAt(r, 0) == Correct(true) && Now(r, 1) == 5_400
      && DecisionAt(r, 1).result == Some(RunResult(ProcessExit, 1))
  {
    var r := Run(ExitsLate, 0, HELD, 0, Timing(2_700, 60, 1));
    assert At(r, 0) == Loop(0, 60, 0, false, false);
    assert Now(r, 0) == 2_700;
    assert DecisionAt(r, 0) == Correct(true);
    assert At(r, 1) == Loop(2_700, 2_760, 1, false, false);
    assert Now(r, 1) == 5_400;
  }

  // ----- the loop as it runs -----

  /** What became of a run, and at which turn: `None` when an error was raised. */
  datatype Report = Report(result: Option<RunResult>, turn: nat, launches: nat, renewals: seq<int>, stoppedAt: int)

  /** The loop. It ends however long its turns take; the times are bounded when
      `turn` bounds every turn. */
  method Supervise(r: Run, ghost turn: nat) returns (report: Report)
    requires Timed(r.times)
    ensures IsLast(r, report.turn) && report.result == DecisionAt(r, report.turn).result
    ensures report.launches == 1 + Corrections(r, report.turn) <= 3
    ensures report.renewals == Renewals(r, report.turn + 1) && report.stoppedAt == Now(r, report.turn)
    ensures report.result.Some? ==>
              Justified(r.initial, r.task, r.world(report.turn), MomentOf(r, report.turn), report.result.value)
    ensures r.world(0).interruption.NoInterruption? && r.world(0).first.Some? && r.world(0).first.value.task == r.task
            && NewResult(r.initial, r.world(0).first.value) ==>
              report.turn == 0 && report.result == Some(RunResult(Recorded, 0))
    ensures report.result.Some? && report.result.value.outcome.Timeout? ==>
              report.stoppedAt >= r.startedAt + r.times.timeout
    ensures TurnsWithin(r, turn) ==>
              r.startedAt <= report.stoppedAt < r.startedAt + r.times.timeout + Overrun(report.launches, turn)
    ensures TurnsWithin(r, turn) ==>
              && BeatsWithin(r.startedAt, report.renewals, r.times.heartbeat + turn)
              && report.stoppedAt - LastBeat(r.startedAt, report.renewals) <= r.times.heartbeat + turn
  {
    hide Decide, DecisionAt, MomentOf, Now, TerminalResult, BeatsWithin, LastBeat;
    var nextHeartbeat := r.startedAt + r.times.heartbeat;
    var correctiveAttempts: nat := 0;
    var lastAttemptHadTextToolCall := false;
    var renewals: seq<int> := [];
    var now, slept := r.startedAt, false;
    var k: nat := 0;
    while true
      invariant At(r, k) == Loop(now, nextHeartbeat, correctiveAttempts, lastAttemptHadTextToolCall, slept)
      invariant GoesOn(r, k) && renewals == Renewals(r, k) && correctiveAttempts <= 2
      invariant slept ==> now < r.startedAt + r.times.timeout
      decreases 2 - correctiveAttempts, r.startedAt + r.times.timeout - now, if slept then 0 else 1
    {
      var t := r.world(k);
      ghost var before := Loop(now, nextHeartbeat, correctiveAttempts, lastAttemptHadTextToolCall, slept);
      TurnReads(r, k, before);
      now := now + t.delay + (if slept then r.times.poll else 0);
      var mayCorrect := correctiveAttempts == 0 || (correctiveAttempts == 1 && lastAttemptHadTextToolCall);
      var decision := TakeTurn(t, r.initial, r.task, Moment(now >= nextHeartbeat, now - r.startedAt >= r.times.timeout, mayCorrect));
      assert decision == DecisionAt(r, k);
      GoesOnIff(r.initial, r.task, t, MomentOf(r, k));
      if decision.renewed {
        renewals := renewals + [now];
        nextHeartbeat := now + r.times.heartbeat;
      }
      match decision {
        case Stop(result, _) =>
          EndIsBounded(r, turn, k);
          SuccessAtOnce(r, k);
          return Report(result, k, 1 + correctiveAttempts, renewals, now);
        case Correct(_) =>
          correctiveAttempts := correctiveAttempts + 1;
          lastAttemptHadTextToolCall := t.textToolCall;
          slept := false;
        case Sleep(_) =>
          slept := true;
      }
      k := k + 1;
    }
  }

  lemma EndIsBounded(r: Run, turn: nat, n: nat)
    requires Timed(r.times) && IsLast(r, n)
    ensures At(r, n).attempts == Corrections(r, n) <= 2
    ensures DecisionAt(r, n).result.Some? ==>
      Justified(r.initial, r.task, r.world(n), MomentOf(r, n), DecisionAt(r, n).result.value)
    ensures DecisionAt(r, n).result.Some? && DecisionAt(r, n).result.value.outcome.Timeout? ==> Late(r, n)
    ensures TurnsWithin(r, turn) ==>
      && r.startedAt <= Now(r, n) < r.startedAt + r.times.timeout + Overrun(1 + Corrections(r, n), turn)
      && BeatsWithin(r.startedAt, Renewals(r, n + 1), r.times.heartbeat + turn)
      && Now(r, n) - LastBeat(r.startedAt, Renewals(r, n + 1)) <= r.times.heartbeat + turn
  {
    hide Decide, At, Now, Renewals, BeatsWithin, LastBeat, TerminalResult, TurnsWithin;
    CorrectionsAreFew(r, n);
    if TurnsWithin(r, turn) {
      ClockIsBounded(r, turn, n);
      RenewalsKeepUp(r, turn, n);
    }
    ResultsAreJustified(r.initial, r.task, r.world(n), MomentOf(r, n));
  }

  lemma SuccessAtOnce(r: Run, n: nat)
    requires IsLast(r, n)
    ensures r.world(0).interruption.NoInterruption? && r.world(0).first.Some? && r.world(0).first.value.task == r.task
            && NewResult(r.initial, r.world(0).first.value) ==>
      n == 0 && DecisionAt(r, n).result == Some(RunResult(Recorded, 0))
  {
    hide Decide, MomentOf, DecisionAt;
    if r.world(0).interruption.NoInterruption? && r.world(0).first.Some? && r.world(0).first.value.task == r.task {
      SuccessIsReported(r, 0);
      assert n > 0 ==> !DecisionAt(r, 0).Stop?;
    }
  }
}
