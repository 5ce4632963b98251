/** A lane from end to end: the loop around the child, the write its supervisor
    makes last, and what a cancel leads to. */
module Lane {
  import opened Options
  import opened Dispatch
  import Loop = SupervisorLoop

  function StateOf(outcome: Loop.Outcome): State {
    match outcome
    case Completed => State.Completed
    case Failed => State.Failed
    case Cancelled => State.Cancelled
    case TimedOut => State.TimedOut
    case StalledNoEdit => State.StalledNoEdit
  }

  /** The step in which supervisor `p` writes what its loop around `c` came to. */
  function Reports(p: Process, c: Loop.Child, n: nat): Step {
    Finishes(p, StateOf(Loop.Result(c, n).0), Loop.Result(c, n).1)
  }

  /** A job ends with the loop's exit code, and with its outcome unless a cancel has
      marked it; so it completes exactly when no cancel did and its child exited
      with 0 before any cause to stop it. A job recorded as cancelled shows exit
      code 0 exactly when the cancel had marked it and the child had done that. */
  lemma JobsEndAsReported(w: World, limit: nat, p: Process, c: Loop.Child, n: nat)
    requires Fits(w) && w.lock.None? && p in w.supervisors && w.supervisors[p].phase.Working? && Loop.IsLast(c, n)
    ensures var j, v := w.supervisors[p].job, Next(w, limit, Reports(p, c, n));
      && j in w.jobs && j in v.jobs && p !in v.supervisors
      && var marked, itself := w.jobs[j].state.Cancelling?, c.world(n).exit == Some(0) && Loop.FirstCause(c, n).None?;
      && v.jobs[j].exitCode == Some(Loop.Result(c, n).1)
      && v.jobs[j].state == (if marked then State.Cancelled else StateOf(Loop.Result(c, n).0))
      && (v.jobs[j].state.Completed? <==> !marked && itself)
      && (v.jobs[j].state.Cancelled? && v.jobs[j].exitCode == Some(0) <==> marked && itself)
  {
    hide Fits, Loop.Result, Loop.FirstCause, Loop.IsLast, Loop.EndingAt;
    SupervisorHolds(w, p);
    Loop.ResultMeans(c, n);
  }

  /** Step `step` is the last write of a supervisor at work on job `j`. */
  predicate EndsJob(w: World, step: Step, j: JobId) {
    && step.Finishes? && w.lock.None? && step.p in w.supervisors && w.supervisors[step.p].phase.Working?
    && w.supervisors[step.p].job == j && !step.outcome.Open() && !step.outcome.Orphaned?
  }

  /** A job that a cancel has marked stays as it is until its supervisor's last
      write makes it cancelled, or until it is found without one. */
  lemma MarkedJobs(w: World, limit: nat, step: Step, j: JobId)
    requires Fits(w) && j in w.jobs && w.jobs[j].state.Cancelling?
    ensures var v := Next(w, limit, step);
      j in v.jobs &&
      if EndsJob(w, step, j) then v.jobs[j].state.Cancelled? && v.jobs[j].exitCode == Some(step.exitCode)
      else v.jobs[j].state.Cancelling? || (v.jobs[j].state.Orphaned? && !Live(w, w.jobs[j]))
  {
    hide Fits, Admits, Recent, Alive;
    LockHolds(w);
    if SupervisorStep(step) && step.p in w.supervisors {
      MarkedUnderSupervisor(w, limit, step, j);
    }
  }

  lemma MarkedUnderSupervisor(w: World, limit: nat, step: Step, j: JobId)
    requires Fits(w) && j in w.jobs && w.jobs[j].state.Cancelling? && SupervisorStep(step) && step.p in w.supervisors
    ensures var v := Next(w, limit, step);
      j in v.jobs &&
      if EndsJob(w, step, j) then v.jobs[j].state.Cancelled? && v.jobs[j].exitCode == Some(step.exitCode)
      else v.jobs[j].state.Cancelling?
  {
    hide Fits, Admits, Recent;
    SupervisorHolds(w, step.p);
  }

  /** After step `i` a cancel has marked job `j`. */
  predicate Marked(limit: nat, steps: seq<Step>, i: nat, j: JobId)
    requires i <= |steps|
  {
    var w := Run(EMPTY, limit, steps[..i]);
    j in w.jobs && w.jobs[j].state.Cancelling?
  }

  lemma RunOneMore(limit: nat, steps: seq<Step>, n: nat)
    requires n < |steps|
    ensures Run(EMPTY, limit, steps[..n + 1]) == Next(Run(EMPTY, limit, steps[..n]), limit, steps[n])
  {
    assert steps[..n + 1][..n] == steps[..n] && steps[..n + 1][n] == steps[n];
  }

  /** Step `k` of the run ends job `j`, marked by then, with `exitCode`. */
  predicate EndsMarked(limit: nat, steps: seq<Step>, k: nat, j: JobId, exitCode: int)
    requires k < |steps|
  {
    Marked(limit, steps, k, j) && EndsJob(Run(EMPTY, limit, steps[..k]), steps[k], j) && steps[k].exitCode == exitCode
  }

  /** What becomes of a marked job in one step of a run. */
  lemma MarkedStep(limit: nat, steps: seq<Step>, n: nat, j: JobId)
    requires n < |steps| && Marked(limit, steps, n, j)
    ensures var w := Run(EMPTY, limit, steps[..n + 1]);
      && j in w.jobs && (w.jobs[j].state.Cancelling? || w.jobs[j].state.Cancelled? || w.jobs[j].state.Orphaned?)
      && (w.jobs[j].state.Cancelled? ==>
            w.jobs[j].exitCode.Some? && EndsMarked(limit, steps, n, j, w.jobs[j].exitCode.value))
      && ((exists code :: EndsMarked(limit, steps, n, j, code)) ==> w.jobs[j].state.Cancelled?)
  {
    hide Fits, Next, Run, EndsJob;
    RunOneMore(limit, steps, n);
    RunFits(limit, steps[..n]);
    MarkedJobs(Run(EMPTY, limit, steps[..n]), limit, steps[n], j);
  }

  lemma OverStep(limit: nat, steps: seq<Step>, n: nat, j: JobId)
    requires n < |steps|
    requires var w := Run(EMPTY, limit, steps[..n]); j in w.jobs && !w.jobs[j].state.Open()
    ensures j in Run(EMPTY, limit, steps[..n + 1]).jobs
    ensures Run(EMPTY, limit, steps[..n + 1]).jobs[j] == Run(EMPTY, limit, steps[..n]).jobs[j]
    ensures !Marked(limit, steps, n, j)
  {
    hide Fits, Next, Run;
    RunOneMore(limit, steps, n);
    RunFits(limit, steps[..n]);
    OverStaysOver(Run(EMPTY, limit, steps[..n]), limit, steps[n], j);
  }

  /** A marked job never ends otherwise than cancelled or orphaned; it is cancelled
      exactly if its supervisor made its last write, and then shows the exit code
      reported there. */
  lemma {:induction false} MarkedJobsEndCancelled(limit: nat, steps: seq<Step>, i: nat, n: nat, j: JobId)
    requires i <= n <= |steps| && Marked(limit, steps, i, j)
    ensures var w := Run(EMPTY, limit, steps[..n]);
      && j in w.jobs && (w.jobs[j].state.Cancelling? || w.jobs[j].state.Cancelled? || w.jobs[j].state.Orphaned?)
      && (w.jobs[j].state.Cancelled? ==>
            w.jobs[j].exitCode.Some?
            && exists k | i <= k < n :: EndsMarked(limit, steps, k, j, w.jobs[j].exitCode.value))
      && ((exists k, code | i <= k < n :: EndsMarked(limit, steps, k, j, code)) ==> w.jobs[j].state.Cancelled?)
    decreases n
  {
    hide Run, EndsMarked;
    if i < n {
      MarkedJobsEndCancelled(limit, steps, i, n - 1, j);
      if Run(EMPTY, limit, steps[..n - 1]).jobs[j].state.Cancelling? {
        MarkedStep(limit, steps, n - 1, j);
      } else {
        OverStep(limit, steps, n - 1, j);
        UnmarkedEndsNothing(limit, steps, n - 1, j);
      }
    }
  }

  lemma UnmarkedEndsNothing(limit: nat, steps: seq<Step>, n: nat, j: JobId)
    requires n < |steps| && !Marked(limit, steps, n, j)
    ensures forall code :: !EndsMarked(limit, steps, n, j, code)
  {
  }
}
