/** The dispatcher's shared world: job documents under a state lock, supervisor
    processes, and one write that takes no lock. A run is any sequence of steps;
    a step whose guard does not hold changes nothing.

    Two assumptions are built in: a process start probe reports the process
    that is there (identities are never reused), and the clock does not go back. */
module Dispatch {
  import opened Options

  type JobId = nat

  /** The pids a supervisor may have. */
  type Pid = pid: nat | pid > 1 witness 2

  /** A process identity: pids recur, start times of one pid do not. */
  datatype Process = Process(pid: Pid, start: nat)

  datatype State =
    Starting | Running | Cancelling | Completed | Failed | Cancelled | TimedOut | Orphaned | StalledNoEdit
  {
    predicate Open() { Starting? || Running? || Cancelling? }
  }

  datatype Job = Job(
    state: State, directory: string, createdAt: int, startedAt: Option<int>, finishedAt: Option<int>,
    supervisor: Option<Process>, heartbeatAt: Option<int>, exitCode: Option<int>, edited: bool, toolCalls: nat)

  /** Where a supervisor process stands in `_run`; `Ready` holds the document
      it read, from which its next write is made. */
  datatype Phase = Spawned | Waiting | Ready(read: Job) | Working(edited: bool, toolCalls: nat)
  datatype Supervisor = Supervisor(job: JobId, phase: Phase)

  /** A `start` that holds the lock between reserving and recording, with the
      document it made and will write again. */
  datatype Pending = Pending(job: JobId, pid: Pid, document: Job)

  datatype World = World(
    now: int,
    jobs: map<JobId, Job>,
    live: map<Pid, nat>,
    born: nat,
    supervisors: map<Process, Supervisor>,
    lock: Option<Pending>)

  const HEARTBEAT_STALE_SECONDS := 30
  const CLOCK_SKEW_SECONDS := 5

  /** `_live`: the recorded supervisor is the process with that pid now. */
  predicate Live(w: World, d: Job) {
    d.supervisor.Some? && Alive(w, d.supervisor.value)
  }

  predicate Alive(w: World, p: Process) {
    p.pid in w.live && w.live[p.pid] == p.start
  }

  /** `_recent_heartbeat`. */
  predicate Recent(w: World, d: Job) {
    -CLOCK_SKEW_SECONDS <= w.now - LastSeen(d) <= HEARTBEAT_STALE_SECONDS
  }

  function LastSeen(d: Job): int {
    if d.heartbeatAt.Some? then d.heartbeatAt.value else d.createdAt
  }

  /** `_active`. */
  predicate Active(w: World, d: Job) {
    d.state.Open() && (Live(w, d) || Recent(w, d))
  }

  /** `_reconcile`. */
  function Reconcile(w: World, d: Job): Job {
    if d.state.Open() && !Active(w, d) then
      d.(state := Orphaned, finishedAt := Some(w.now), exitCode := None)
    else d
  }

  function ReconcileAll(w: World): World {
    w.(jobs := map j | j in w.jobs :: Reconcile(w, w.jobs[j]))
  }

  function ActiveJobs(w: World): set<JobId> {
    set j | j in w.jobs && Active(w, w.jobs[j])
  }

  predicate DirectoryBusy(w: World, directory: string) {
    exists j | j in w.jobs :: Active(w, w.jobs[j]) && w.jobs[j].directory == directory
  }

  function NewJob(w: World, directory: string): Job {
    Job(Starting, directory, w.now, None, None, None, None, None, false, 0)
  }

  /** Process `pid` ends, and with it the supervisor it may have been. */
  function Ended(w: World, pid: Pid): World {
    w.(live := w.live - {pid}, supervisors := map p | p in w.supervisors && p.pid != pid :: w.supervisors[p])
  }

  function Moved(w: World, p: Process, phase: Phase): World
    requires p in w.supervisors
  {
    w.(supervisors := w.supervisors[p := w.supervisors[p].(phase := phase)])
  }

  datatype Step =
    | Tick(seconds: nat)
    | ProcessAppears(pid: Pid)
    | ProcessEnds(pid: Pid)
    | Status
    | StatusOf(job: JobId)
    | Cancel(job: JobId, groupLeader: bool)
    | Reserve(job: JobId, directory: string, pid: Pid)
    | SpawnFails(job: JobId, directory: string)
    | Record
    | Abandon
    | Reads(p: Process)
    | GivesUp(p: Process)
    | CredentialFails(p: Process)
    | Begins(p: Process)
    | Observes(p: Process, edited: bool, toolCalls: nat)
    | Heartbeats(p: Process)
    | Finishes(p: Process, outcome: State, exitCode: int)

  function Next(w: World, limit: nat, step: Step): World {
    match step
    case Tick(seconds) => w.(now := w.now + seconds)
    case ProcessAppears(pid) =>
      if pid in w.live then w else w.(live := w.live[pid := w.born], born := w.born + 1)
    case ProcessEnds(pid) => Ended(w, pid)
    case Status => if w.lock.Some? then w else ReconcileAll(w)
    case StatusOf(j) =>
      if w.lock.Some? || j !in w.jobs then w else w.(jobs := w.jobs[j := Reconcile(w, w.jobs[j])])
    case Cancel(j, groupLeader) => if w.lock.Some? || j !in w.jobs then w else MarkCancelling(w, j, groupLeader)
    case Reserve(j, directory, pid) =>
      if w.lock.Some? || j in w.jobs || pid in w.live then w
      else
        var r := ReconcileAll(w);
        if !Admits(r, limit, directory) then r
        else
          Admit(r, j, directory, pid)
    case SpawnFails(j, directory) =>
      if w.lock.Some? || j in w.jobs then w
      else
        var r := ReconcileAll(w);
        if !Admits(r, limit, directory) then r
        else r.(jobs := r.jobs[j := NewJob(w, directory).(state := Failed, finishedAt := Some(w.now))])
    case Record => if w.lock.None? then w else Recorded(w)
    case Abandon => w.(lock := None)
    case Reads(p) => if p in w.supervisors && w.supervisors[p].job in w.jobs then Reading(w, p) else w
    case GivesUp(p) => if p in w.supervisors && w.supervisors[p].phase.Waiting? then Ended(w, p.pid) else w
    case CredentialFails(p) =>
      if p in w.supervisors && w.supervisors[p].phase.Ready? then
        var Supervisor(j, phase) := w.supervisors[p];
        Ended(w.(jobs := w.jobs[j := phase.read.(state := Failed, finishedAt := Some(w.now), exitCode := Some(70))]), p.pid)
      else w
    case Begins(p) =>
      if p in w.supervisors && w.supervisors[p].phase.Ready? then
        var Supervisor(j, phase) := w.supervisors[p];
        var running := phase.read.(state := Running, startedAt := Some(w.now), heartbeatAt := Some(w.now));
        Moved(w.(jobs := w.jobs[j := running]), p, Working(phase.read.edited, phase.read.toolCalls))
      else w
    case Observes(p, edited, toolCalls) =>
      if p in w.supervisors && w.supervisors[p].phase.Working? then
        Moved(w, p, Working(w.supervisors[p].phase.edited || edited, toolCalls))
      else w
    case Heartbeats(p) =>
      if w.lock.None? && p in w.supervisors && w.supervisors[p].phase.Working? && w.supervisors[p].job in w.jobs then
        Beating(w, p)
      else w
    case Finishes(p, outcome, exitCode) =>
      if w.lock.None? && p in w.supervisors && w.supervisors[p].phase.Working? && w.supervisors[p].job in w.jobs
         && !outcome.Open() && !outcome.Orphaned? then
        Ended(Finishing(w, p, outcome, exitCode), p.pid)
      else w
  }

  /** `start` goes on: fewer than `limit` jobs are active, none in `directory`. */
  predicate Admits(r: World, limit: nat, directory: string) {
    |ActiveJobs(r)| < limit && !DirectoryBusy(r, directory)
  }

  /** The reservation: the document is written and the supervisor launched. */
  function Admit(r: World, j: JobId, directory: string, pid: Pid): World {
    r.(jobs := r.jobs[j := NewJob(r, directory)], live := r.live[pid := r.born], born := r.born + 1,
       supervisors := r.supervisors[Process(pid, r.born) := Supervisor(j, Spawned)], lock := Some(Pending(j, pid, NewJob(r, directory))))
  }

  /** `start` writes down who the supervisor is, if it is still there. */
  function Recorded(w: World): World
    requires w.lock.Some?
  {
    var Pending(j, pid, document) := w.lock.value;
    if pid in w.live then
      w.(jobs := w.jobs[j := document.(supervisor := Some(Process(pid, w.live[pid])))], lock := None)
    else w.(lock := None)
  }

  /** `cancel`, past its reconciliation: terminal jobs are left alone, starting
      and dead ones are refused, a live one is marked and signalled. */
  function MarkCancelling(w: World, j: JobId, groupLeader: bool): World
    requires j in w.jobs
  {
    var d := Reconcile(w, w.jobs[j]);
    if d.state.Open() && !d.state.Starting? && Live(w, d) && groupLeader then
      w.(jobs := w.jobs[j := d.(state := Cancelling)])
    else w.(jobs := w.jobs[j := d])
  }

  /** The supervisor looks for its own identity in its document. */
  function Reading(w: World, p: Process): World
    requires p in w.supervisors && w.supervisors[p].job in w.jobs
  {
    var Supervisor(j, phase) := w.supervisors[p];
    var d := w.jobs[j];
    if phase.Spawned? && !d.state.Starting? then Ended(w, p.pid)
    else if phase.Spawned? || phase.Waiting? then
      Moved(w, p, if d.supervisor == Some(p) then Ready(d) else Waiting)
    else w
  }

  function Beating(w: World, p: Process): World
    requires p in w.supervisors && w.supervisors[p].phase.Working? && w.supervisors[p].job in w.jobs
  {
    var Supervisor(j, phase) := w.supervisors[p];
    var latest := w.jobs[j];
    if latest.supervisor == Some(p) && Alive(w, p) && (latest.state.Running? || latest.state.Orphaned?) then
      w.(jobs := w.jobs[j := latest.(state := Running, heartbeatAt := Some(w.now),
                                     edited := phase.edited, toolCalls := phase.toolCalls)])
    else w
  }

  function Finishing(w: World, p: Process, outcome: State, exitCode: int): World
    requires p in w.supervisors && w.supervisors[p].phase.Working? && w.supervisors[p].job in w.jobs
  {
    var Supervisor(j, phase) := w.supervisors[p];
    var latest := w.jobs[j];
    w.(jobs := w.jobs[j := latest.(
      state := if latest.state.Cancelling? then Cancelled else outcome, finishedAt := Some(w.now),
      exitCode := Some(exitCode), edited := phase.edited, toolCalls := phase.toolCalls)])
  }

  function Run(w: World, limit: nat, steps: seq<Step>): World {
    if steps == [] then w else Next(Run(w, limit, steps[..|steps| - 1]), limit, steps[|steps| - 1])
  }

  const EMPTY: World := World(0, map[], map[], 0, map[], None)

  // ----- the invariant -----

  /** No stamp lies in the future, and no recorded identity is yet to be born. */
  predicate JobFits(w: World, d: Job) {
    && LastSeen(d) <= w.now && d.createdAt <= w.now
    && (d.supervisor.Some? ==> d.supervisor.value.start < w.born)
    && (d.state.Orphaned? ==> !Live(w, d))
  }

  /** A supervisor process is alive, and its document is as it left it. */
  predicate SupervisorFits(w: World, p: Process)
    requires p in w.supervisors
  {
    var Supervisor(j, phase) := w.supervisors[p];
    Alive(w, p) && j in w.jobs &&
    match phase
    case Ready(read) => w.jobs[j] == read && read.state.Starting? && read.supervisor == Some(p)
    case Working(_, _) => w.jobs[j].supervisor == Some(p) && (w.jobs[j].state.Running? || w.jobs[j].state.Cancelling?)
    case _ => w.jobs[j].supervisor == Some(p) ==> w.jobs[j].state.Starting?
  }

  /** Jobs that count: active ones, and the one a `start` is still recording. */
  function Occupying(w: World): set<JobId> {
    ActiveJobs(w) + (if w.lock.Some? then {w.lock.value.job} else {})
  }

  predicate LockFits(w: World) {
    w.lock.Some? ==>
      var j := w.lock.value.job;
      && j in w.jobs && w.jobs[j].state.Starting? && w.jobs[j].supervisor.None?
      && w.jobs[j] == w.lock.value.document
  }

  ghost predicate Fits(w: World) {
    && (forall pid | pid in w.live :: w.live[pid] < w.born)
    && (forall j | j in w.jobs :: JobFits(w, w.jobs[j]))
    && (forall p | p in w.supervisors :: SupervisorFits(w, p))
    && (forall p, q | p in w.supervisors && q in w.supervisors && w.supervisors[p].job == w.supervisors[q].job :: p == q)
    && LockFits(w)
  }

  ghost predicate Bounded(w: World, limit: nat) {
    && |Occupying(w)| <= limit
    && forall j, k | j in Occupying(w) && k in Occupying(w) && j in w.jobs && k in w.jobs ::
         w.jobs[j].directory == w.jobs[k].directory ==> j == k
  }

  // ----- every step keeps the invariant -----

  lemma ReconcileFits(w: World, d: Job)
    requires JobFits(w, d)
    ensures JobFits(w, Reconcile(w, d))
    ensures Reconcile(w, d).supervisor == d.supervisor && Reconcile(w, d).directory == d.directory
    ensures Reconcile(w, d) != d ==> Reconcile(w, d).state.Orphaned? && d.state.Open() && !Live(w, d)
  {
  }

  /** Reconciling any jobs while no start is recording. */
  lemma ReconciledFits(w: World, v: World)
    requires Fits(w) && w.lock.None? && v == w.(jobs := v.jobs) && v.jobs.Keys == w.jobs.Keys
    requires forall j | j in w.jobs :: v.jobs[j] == w.jobs[j] || v.jobs[j] == Reconcile(w, w.jobs[j])
    ensures Fits(v)
  {
    forall j | j in v.jobs ensures JobFits(v, v.jobs[j]) {
      ReconcileFits(w, w.jobs[j]);
    }
    forall p | p in v.supervisors ensures SupervisorFits(v, p) {
      assert SupervisorFits(w, p);
      ReconcileFits(w, w.jobs[w.supervisors[p].job]);
    }
  }

  /** The supervisor at `p` writes its own document and moves on. */
  lemma OwnWriteFits(w: World, p: Process, d: Job, phase: Phase)
    requires Fits(w) && p in w.supervisors && JobFits(w, d)
    requires var j := w.supervisors[p].job; w.jobs[j].supervisor == Some(p)
    requires d.supervisor == Some(p) && phase.Working? && (d.state.Running? || d.state.Cancelling?)
    ensures var j := w.supervisors[p].job; Fits(Moved(w.(jobs := w.jobs[j := d]), p, phase))
  {
    var j := w.supervisors[p].job;
    var v := Moved(w.(jobs := w.jobs[j := d]), p, phase);
    assert SupervisorFits(w, p);
    forall k | k in v.jobs ensures JobFits(v, v.jobs[k]) {
      assert k != j ==> JobFits(w, w.jobs[k]);
    }
    forall q | q in v.supervisors ensures SupervisorFits(v, q) {
      assert SupervisorFits(w, q);
    }
  }

  /** The supervisor at `p` ends, perhaps after one last write. */
  lemma EndedFits(w: World, pid: Pid)
    requires Fits(w)
    ensures Fits(Ended(w, pid))
  {
    var v := Ended(w, pid);
    forall j | j in v.jobs ensures JobFits(v, v.jobs[j]) {
      assert JobFits(w, w.jobs[j]);
    }
    forall q | q in v.supervisors ensures SupervisorFits(v, q) {
      assert SupervisorFits(w, q);
    }
  }

  lemma LastWriteFits(w: World, p: Process, d: Job)
    requires Fits(w) && p in w.supervisors && JobFits(w, d)
    requires w.jobs[w.supervisors[p].job].supervisor == Some(p)
    ensures Fits(Ended(w.(jobs := w.jobs[w.supervisors[p].job := d]), p.pid))
  {
    var j := w.supervisors[p].job;
    var v := Ended(w.(jobs := w.jobs[j := d]), p.pid);
    assert SupervisorFits(w, p);
    forall k | k in v.jobs ensures JobFits(v, v.jobs[k]) {
      assert k != j ==> JobFits(w, w.jobs[k]);
    }
    forall q | q in v.supervisors ensures SupervisorFits(v, q) {
      assert SupervisorFits(w, q);
    }
  }

  lemma ReadingFits(w: World, p: Process)
    requires Fits(w) && p in w.supervisors
    ensures Fits(Reading(w, p))
  {
    var v := Reading(w, p);
    assert SupervisorFits(w, p);
    EndedFits(w, p.pid);
    if v.live == w.live {
      forall k | k in v.jobs ensures JobFits(v, v.jobs[k]) {
        assert JobFits(w, w.jobs[k]);
      }
      forall q | q in v.supervisors ensures SupervisorFits(v, q) {
        assert SupervisorFits(w, q);
      }
    }
  }

  lemma BirthFits(w: World, v: World)
    requires Fits(w) && v.now >= w.now && v == w.(now := v.now, live := v.live, born := v.born)
    requires (v.live == w.live && v.born == w.born)
          || (exists pid: Pid | pid !in w.live :: v.live == w.live[pid := w.born] && v.born == w.born + 1)
    ensures Fits(v)
  {
    forall j | j in v.jobs ensures JobFits(v, v.jobs[j]) {
      assert JobFits(w, w.jobs[j]);
    }
    forall q | q in v.supervisors ensures SupervisorFits(v, q) {
      assert SupervisorFits(w, q);
    }
  }

  lemma FailedJobFits(w: World, j: JobId, directory: string)
    requires Fits(w) && w.lock.None? && j !in w.jobs
    ensures Fits(w.(jobs := w.jobs[j := NewJob(w, directory).(state := Failed, finishedAt := Some(w.now))]))
  {
    var v := w.(jobs := w.jobs[j := NewJob(w, directory).(state := Failed, finishedAt := Some(w.now))]);
    forall k | k in v.jobs ensures JobFits(v, v.jobs[k]) {
      assert k != j ==> JobFits(w, w.jobs[k]);
    }
    forall q | q in v.supervisors ensures SupervisorFits(v, q) {
      assert SupervisorFits(w, q);
    }
  }

  lemma NewJobFits(w: World, j: JobId, pid: Pid, directory: string)
    requires Fits(w) && w.lock.None? && j !in w.jobs && pid !in w.live
    ensures Fits(Admit(w, j, directory, pid))
  {
    var p := Process(pid, w.born);
    var v := Admit(w, j, directory, pid);
    forall k | k in v.jobs ensures JobFits(v, v.jobs[k]) {
      assert k != j ==> JobFits(w, w.jobs[k]);
    }
    forall q | q in v.supervisors ensures SupervisorFits(v, q) {
      assert q != p ==> SupervisorFits(w, q);
    }
    forall q, r | q in v.supervisors && r in v.supervisors && v.supervisors[q].job == v.supervisors[r].job ensures q == r {
      assert q != p ==> SupervisorFits(w, q);
      assert r != p ==> SupervisorFits(w, r);
    }
  }

  lemma RecordFits(w: World)
    requires Fits(w) && w.lock.Some?
    ensures Fits(Recorded(w))
  {
    var v := Recorded(w);
    forall k | k in v.jobs ensures JobFits(v, v.jobs[k]) {
      assert JobFits(w, w.jobs[k]);
    }
    forall q | q in v.supervisors ensures SupervisorFits(v, q) {
      assert SupervisorFits(w, q);
    }
  }

  lemma AbandonFits(w: World)
    requires Fits(w)
    ensures Fits(w.(lock := None))
  {
    var v := w.(lock := None);
    forall k | k in v.jobs ensures JobFits(v, v.jobs[k]) {
      assert JobFits(w, w.jobs[k]);
    }
    forall q | q in v.supervisors ensures SupervisorFits(v, q) {
      assert SupervisorFits(w, q);
    }
  }

  lemma CancelFits(w: World, j: JobId, groupLeader: bool)
    requires Fits(w) && w.lock.None? && j in w.jobs
    ensures Fits(MarkCancelling(w, j, groupLeader))
  {
    var v := MarkCancelling(w, j, groupLeader);
    forall k | k in v.jobs ensures JobFits(v, v.jobs[k]) {
      assert JobFits(w, w.jobs[k]);
    }
    forall p | p in v.supervisors ensures SupervisorFits(v, p) {
      assert SupervisorFits(w, p) && JobFits(w, w.jobs[w.supervisors[p].job]);
    }
  }

  lemma SupervisorHolds(w: World, p: Process)
    requires Fits(w) && p in w.supervisors
    ensures SupervisorFits(w, p) && JobFits(w, w.jobs[w.supervisors[p].job])
  {
  }

  lemma StateStepFits(w: World, limit: nat, step: Step)
    requires Fits(w) && !SupervisorStep(step)
    ensures Fits(Next(w, limit, step))
  {
    hide Fits, Reconcile, MarkCancelling, Admits, ReconcileAll;
    match step
    case Tick(_) => BirthFits(w, Next(w, limit, step));
    case ProcessAppears(_) => BirthFits(w, Next(w, limit, step));
    case ProcessEnds(pid) => EndedFits(w, pid);
    case Status => ReconcileAllFits(w);
    case StatusOf(j) => if w.lock.None? && j in w.jobs { ReconciledFits(w, Next(w, limit, step)); }
    case Cancel(j, leader) => if w.lock.None? && j in w.jobs { CancelFits(w, j, leader); }
    case Reserve(j, directory, pid) =>
      ReconcileAllFits(w);
      if w.lock.None? && j !in w.jobs && pid !in w.live {
        NewJobFits(ReconcileAll(w), j, pid, directory);
      }
    case SpawnFails(j, directory) =>
      ReconcileAllFits(w);
      if w.lock.None? && j !in w.jobs {
        FailedJobFits(ReconcileAll(w), j, directory);
      }
    case Record => if w.lock.Some? { RecordFits(w); }
    case Abandon => AbandonFits(w);
  }

  lemma ReconcileAllFits(w: World)
    requires Fits(w)
    ensures w.lock.None? ==> Fits(ReconcileAll(w))
    ensures ReconcileAll(w) == w.(jobs := ReconcileAll(w).jobs) && ReconcileAll(w).jobs.Keys == w.jobs.Keys
  {
    if w.lock.None? {
      ReconciledFits(w, ReconcileAll(w));
    }
  }

  predicate SupervisorStep(step: Step) {
    step.Reads? || step.GivesUp? || step.CredentialFails? || step.Begins? || step.Observes? || step.Heartbeats?
    || step.Finishes?
  }

  lemma SupervisorStepFits(w: World, limit: nat, step: Step)
    requires Fits(w) && SupervisorStep(step) && step.p in w.supervisors
    ensures Fits(Next(w, limit, step))
  {
    hide Fits;
    var p := step.p;
    SupervisorHolds(w, p);
    var Supervisor(j, phase) := w.supervisors[p];
    var d := w.jobs[j];
    match step
    case Reads(_) => ReadingFits(w, p);
    case GivesUp(_) => EndedFits(w, p.pid);
    case CredentialFails(_) =>
      if phase.Ready? {
        LastWriteFits(w, p, phase.read.(state := Failed, finishedAt := Some(w.now), exitCode := Some(70)));
      }
    case Begins(_) =>
      if phase.Ready? {
        OwnWriteFits(w, p, phase.read.(state := Running, startedAt := Some(w.now), heartbeatAt := Some(w.now)),
                     Working(phase.read.edited, phase.read.toolCalls));
      }
    case Observes(_, edited, calls) =>
      if phase.Working? {
        assert w.jobs[j := d] == w.jobs;
        OwnWriteFits(w, p, d, Working(phase.edited || edited, calls));
      }
    case Heartbeats(_) =>
      if phase.Working? {
        var v := Beating(w, p);
        OwnWriteFits(w, p, v.jobs[j], phase);
        assert w.supervisors[p := w.supervisors[p].(phase := phase)] == w.supervisors;
        assert w.jobs[j := v.jobs[j]] == v.jobs;
      }
    case Finishes(_, outcome, exitCode) =>
      if phase.Working? && !outcome.Open() && !outcome.Orphaned? {
        LastWriteFits(w, p, Finishing(w, p, outcome, exitCode).jobs[j]);
      }
  }

  lemma AbsentSupervisorDoesNothing(w: World, limit: nat, step: Step)
    requires SupervisorStep(step) && step.p !in w.supervisors
    ensures Next(w, limit, step) == w
  {
  }

  lemma NextFits(w: World, limit: nat, step: Step)
    requires Fits(w)
    ensures Fits(Next(w, limit, step))
  {
    hide Fits, Next;
    if !SupervisorStep(step) {
      StateStepFits(w, limit, step);
    } else if step.p in w.supervisors {
      SupervisorStepFits(w, limit, step);
    } else {
      AbsentSupervisorDoesNothing(w, limit, step);
    }
  }

  // ----- only a start adds to the jobs that count -----

  /** Job `j` counts in `v` only if it counted in `w`, in the same directory. */
  predicate NoGain(w: World, v: World, j: JobId) {
    j in Occupying(v) ==>
      j in Occupying(w) && (j in v.jobs ==> j in w.jobs && v.jobs[j].directory == w.jobs[j].directory)
  }

  lemma ActivityOnlyFades(w: World, v: World, d: Job)
    requires Fits(w) && JobFits(w, d) && w.now <= v.now
    requires forall pid | pid in v.live && v.live[pid] < w.born :: pid in w.live && w.live[pid] == v.live[pid]
    ensures Active(v, d) ==> Active(w, d)
  {
  }

  lemma EnvironmentGainsNothing(w: World, limit: nat, step: Step, j: JobId)
    requires Fits(w) && (step.Tick? || step.ProcessAppears? || step.ProcessEnds? || step.Abandon?)
    ensures NoGain(w, Next(w, limit, step), j)
  {
    if j in w.jobs {
      assert JobFits(w, w.jobs[j]);
      ActivityOnlyFades(w, Next(w, limit, step), w.jobs[j]);
    }
  }

  lemma ReconcilingGainsNothing(w: World, limit: nat, step: Step, j: JobId)
    requires Fits(w) && (step.Status? || step.StatusOf? || step.Cancel?)
    ensures NoGain(w, Next(w, limit, step), j)
  {
  }

  lemma StartingGainsNothing(w: World, limit: nat, step: Step, j: JobId)
    requires Fits(w) && (step.SpawnFails? || step.Record?)
    ensures NoGain(w, Next(w, limit, step), j)
  {
    hide Admits;
  }

  /** Jobs that a supervisor's step leaves as they are. */
  lemma OtherJobsGainNothing(w: World, limit: nat, step: Step, j: JobId)
    requires Fits(w) && SupervisorStep(step) && step.p in w.supervisors
    requires j in w.jobs ==> j in Next(w, limit, step).jobs && Next(w, limit, step).jobs[j] == w.jobs[j]
    requires j !in w.jobs ==> j !in Next(w, limit, step).jobs
    ensures NoGain(w, Next(w, limit, step), j)
  {
    hide Fits, Active;
    if j in w.jobs {
      JobHolds(w, j);
      ActivityOnlyFades(w, Next(w, limit, step), w.jobs[j]);
    }
  }

  /** The supervisor's own job counted already: its process is alive. */
  lemma OwnJobGainsNothing(w: World, limit: nat, step: Step)
    requires Fits(w) && SupervisorStep(step) && step.p in w.supervisors
    requires !step.Reads? && !step.GivesUp? && !step.Observes?
    ensures NoGain(w, Next(w, limit, step), w.supervisors[step.p].job)
  {
    hide Fits;
    SupervisorHolds(w, step.p);
  }

  lemma SupervisorStepGainsNothing(w: World, limit: nat, step: Step, j: JobId)
    requires Fits(w) && SupervisorStep(step)
    ensures NoGain(w, Next(w, limit, step), j)
  {
    hide Fits, Active, NoGain;
    if step.p !in w.supervisors {
      SameGainsNothing(w, j);
    } else {
      SupervisorHolds(w, step.p);
      if w.supervisors[step.p].job == j && !step.Reads? && !step.GivesUp? && !step.Observes? {
        OwnJobGainsNothing(w, limit, step);
      } else {
        OtherJobsGainNothing(w, limit, step, j);
      }
    }
  }

  lemma SameGainsNothing(w: World, j: JobId)
    ensures NoGain(w, w, j)
  {
  }

  lemma JobHolds(w: World, j: JobId)
    requires Fits(w) && j in w.jobs
    ensures JobFits(w, w.jobs[j])
  {
  }

  lemma SmallerSet<T>(a: set<T>, b: set<T>)
    requires a <= b
    ensures |a| <= |b|
  {
    assert b == a + (b - a);
  }

  lemma NoGainKeepsBound(w: World, v: World, limit: nat)
    requires Bounded(w, limit) && forall j :: NoGain(w, v, j)
    ensures Bounded(v, limit)
  {
    assert Occupying(v) <= Occupying(w) by {
      forall j | j in Occupying(v) ensures j in Occupying(w) {
        assert NoGain(w, v, j);
      }
    }
    SmallerSet(Occupying(v), Occupying(w));
    forall j, k | j in Occupying(v) && k in Occupying(v) && j in v.jobs && k in v.jobs
                  && v.jobs[j].directory == v.jobs[k].directory
      ensures j == k
    {
      assert NoGain(w, v, j) && NoGain(w, v, k);
    }
  }

  lemma AdmittingAddsOnlyIts(r: World, j: JobId, directory: string, pid: Pid, k: JobId)
    requires Fits(r) && r.lock.None? && j !in r.jobs && pid !in r.live && k != j
    ensures NoGain(r, Admit(r, j, directory, pid), k)
  {
    if k in r.jobs {
      assert JobFits(r, r.jobs[k]);
      ActivityOnlyFades(r, Admit(r, j, directory, pid), r.jobs[k]);
    }
  }

  /** A start is let in only below the limit and into a free directory. */
  lemma AdmittedKeepsBound(r: World, limit: nat, j: JobId, directory: string, pid: Pid)
    requires Fits(r) && r.lock.None? && j !in r.jobs && pid !in r.live
    requires Bounded(r, limit) && Admits(r, limit, directory)
    ensures Bounded(Admit(r, j, directory, pid), limit)
  {
    hide Fits, Active;
    var v := Admit(r, j, directory, pid);
    forall k | k != j ensures NoGain(r, v, k) {
      AdmittingAddsOnlyIts(r, j, directory, pid, k);
    }
    assert Occupying(v) <= Occupying(r) + {j} by {
      forall k | k in Occupying(v) && k != j ensures k in Occupying(r) {
        assert NoGain(r, v, k);
      }
    }
    SmallerSet(Occupying(v), Occupying(r) + {j});
    forall k, l | k in Occupying(v) && l in Occupying(v) && k in v.jobs && l in v.jobs
                  && v.jobs[k].directory == v.jobs[l].directory
      ensures k == l
    {
      assert k != j ==> NoGain(r, v, k);
      assert l != j ==> NoGain(r, v, l);
    }
  }

  lemma ReconcilingAllGainsNothing(w: World, k: JobId)
    ensures NoGain(w, ReconcileAll(w), k)
  {
  }

  lemma ReserveKeepsBound(w: World, limit: nat, j: JobId, directory: string, pid: Pid)
    requires Fits(w) && Bounded(w, limit)
    ensures Bounded(Next(w, limit, Reserve(j, directory, pid)), limit)
  {
    hide Fits, Bounded, Admits, NoGain, Admit, Reconcile, Occupying;
    var r := ReconcileAll(w);
    if w.lock.None? && j !in w.jobs && pid !in w.live {
      forall k ensures NoGain(w, r, k) {
        ReconcilingAllGainsNothing(w, k);
      }
      NoGainKeepsBound(w, r, limit);
      ReconcileAllFits(w);
      if Admits(r, limit, directory) {
        AdmittedKeepsBound(r, limit, j, directory, pid);
      }
    }
  }

  lemma NextKeepsBound(w: World, limit: nat, step: Step)
    requires Fits(w) && Bounded(w, limit)
    ensures Bounded(Next(w, limit, step), limit)
  {
    hide Fits, Next, NoGain, Bounded;
    if step.Reserve? {
      ReserveKeepsBound(w, limit, step.job, step.directory, step.pid);
    } else {
      forall j ensures NoGain(w, Next(w, limit, step), j) {
        if SupervisorStep(step) {
          SupervisorStepGainsNothing(w, limit, step, j);
        } else if step.Status? || step.StatusOf? || step.Cancel? {
          ReconcilingGainsNothing(w, limit, step, j);
        } else if step.SpawnFails? || step.Record? {
          StartingGainsNothing(w, limit, step, j);
        } else {
          EnvironmentGainsNothing(w, limit, step, j);
        }
      }
      NoGainKeepsBound(w, Next(w, limit, step), limit);
    }
  }

  // ----- whole runs -----

  lemma {:induction false} RunFits(limit: nat, steps: seq<Step>)
    ensures Fits(Run(EMPTY, limit, steps)) && Bounded(Run(EMPTY, limit, steps), limit)
  {
    hide Next;
    if steps != [] {
      var n := |steps| - 1;
      RunFits(limit, steps[..n]);
      NextFits(Run(EMPTY, limit, steps[..n]), limit, steps[n]);
      NextKeepsBound(Run(EMPTY, limit, steps[..n]), limit, steps[n]);
    }
  }

  /** In every interleaving at most `limit` jobs are active, no two of them in
      one directory. */
  lemma AtMostLimitActive(limit: nat, steps: seq<Step>)
    ensures var w := Run(EMPTY, limit, steps);
      && |ActiveJobs(w)| <= limit
      && forall j, k | j in ActiveJobs(w) && k in ActiveJobs(w) ::
           w.jobs[j].directory == w.jobs[k].directory ==> j == k
  {
    RunFits(limit, steps);
    var w := Run(EMPTY, limit, steps);
    SmallerSet(ActiveJobs(w), Occupying(w));
  }

  /** So do supervisors at work: each one's job is active, so there are at most
      `limit` of them, in different directories. */
  lemma WorkersAreActive(limit: nat, steps: seq<Step>, p: Process)
    ensures var w := Run(EMPTY, limit, steps);
      p in w.supervisors && w.supervisors[p].phase.Working? ==> w.supervisors[p].job in ActiveJobs(w)
  {
    RunFits(limit, steps);
    var w := Run(EMPTY, limit, steps);
    if p in w.supervisors {
      SupervisorHolds(w, p);
    }
  }

  /** The document of a job that is over is never written again: an orphan, in
      particular, is not revived. */
  lemma OverIsOver(limit: nat, steps: seq<Step>, step: Step, j: JobId)
    ensures var w := Run(EMPTY, limit, steps);
      j in w.jobs && !w.jobs[j].state.Open() ==>
        j in Next(w, limit, step).jobs && Next(w, limit, step).jobs[j] == w.jobs[j]
  {
    hide Fits, Next;
    RunFits(limit, steps);
    var w := Run(EMPTY, limit, steps);
    if j in w.jobs && !w.jobs[j].state.Open() {
      OverStaysOver(w, limit, step, j);
    }
  }

  lemma OverStaysOver(w: World, limit: nat, step: Step, j: JobId)
    requires Fits(w) && j in w.jobs && !w.jobs[j].state.Open()
    ensures j in Next(w, limit, step).jobs && Next(w, limit, step).jobs[j] == w.jobs[j]
  {
    hide Fits, Active, Live, Admits;
    LockHolds(w);
    if SupervisorStep(step) && step.p in w.supervisors {
      SupervisorOverStaysOver(w, limit, step, j);
    }
  }

  lemma SupervisorOverStaysOver(w: World, limit: nat, step: Step, j: JobId)
    requires Fits(w) && j in w.jobs && !w.jobs[j].state.Open() && SupervisorStep(step) && step.p in w.supervisors
    ensures j in Next(w, limit, step).jobs && Next(w, limit, step).jobs[j] == w.jobs[j]
  {
    hide Fits, Active, Admits;
    SupervisorHolds(w, step.p);
  }

  /** While a start holds the lock its own copy is the stored document, so writing
      that copy back with the supervisor's identity changes nothing else. */
  lemma StartersLoseNothing(limit: nat, steps: seq<Step>)
    ensures var w := Run(EMPTY, limit, steps);
      w.lock.Some? ==>
        var Pending(j, pid, document) := w.lock.value;
        && j in w.jobs && w.jobs[j] == document
        && (pid in w.live ==>
              Next(w, limit, Record).jobs == w.jobs[j := w.jobs[j].(supervisor := Some(Process(pid, w.live[pid])))])
  {
    hide Run, Fits;
    RunFits(limit, steps);
    LockHolds(Run(EMPTY, limit, steps));
  }

  lemma LockHolds(w: World)
    requires Fits(w)
    ensures LockFits(w)
  {
  }

  /** The two writes made without the lock are made from a document nobody has
      changed since it was read, whatever ran in between. */
  lemma UnlockedWritesLoseNothing(limit: nat, steps: seq<Step>, p: Process)
    ensures var w := Run(EMPTY, limit, steps);
      p in w.supervisors && w.supervisors[p].phase.Ready? ==>
        var Supervisor(j, phase) := w.supervisors[p];
        && j in w.jobs && w.jobs[j] == phase.read
        && Next(w, limit, Begins(p)).jobs ==
             w.jobs[j := w.jobs[j].(state := Running, startedAt := Some(w.now), heartbeatAt := Some(w.now))]
        && Next(w, limit, CredentialFails(p)).jobs ==
             w.jobs[j := w.jobs[j].(state := Failed, finishedAt := Some(w.now), exitCode := Some(70))]
  {
    hide Fits, Run;
    RunFits(limit, steps);
    var w := Run(EMPTY, limit, steps);
    if p in w.supervisors && w.supervisors[p].phase.Ready? {
      SupervisorHolds(w, p);
    }
  }

  /** Reconciling leaves the active jobs, and every job's directory, as they were. */
  lemma ReconcilingKeepsDirectories(w: World)
    ensures ActiveJobs(ReconcileAll(w)) == ActiveJobs(w) && ReconcileAll(w).jobs.Keys == w.jobs.Keys
    ensures forall j | j in w.jobs :: ReconcileAll(w).jobs[j].directory == w.jobs[j].directory
  {
  }
}
