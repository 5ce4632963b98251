/** The dispatcher itself: the state directory as mutable fields, and one method
    for each region that the program runs under the state lock or in one write. */
module DispatcherState {
  import opened Dispatch
  import opened Options

  datatype Admission = Admitted | ConcurrencyLimit | WorkingDirectoryBusy
  datatype CancelAnswer = NotFound | Over(job: Job) | NotReady | StaleProcess | Signalled(job: Job)

  class Dispatcher {
    var now: int
    var jobs: map<JobId, Job>
    var live: map<Pid, nat>
    var born: nat
    var supervisors: map<Process, Supervisor>
    var lock: Option<Pending>

    function View(): World
      reads this
    {
      World(now, jobs, live, born, supervisors, lock)
    }

    constructor ()
      ensures View() == EMPTY
    {
      now, jobs, live, born, supervisors, lock := 0, map[], map[], 0, map[], None;
    }

    /** The loop `start` and `status` make over the job directories. */
    method ReconcileEach() returns (active: set<JobId>)
      modifies `jobs
      ensures View() == ReconcileAll(old(View()))
      ensures active == ActiveJobs(View()) == ActiveJobs(old(View()))
    {
      hide Active, Reconcile;
      ghost var w := View();
      var left := jobs.Keys;
      active := {};
      while left != {}
        invariant left <= w.jobs.Keys == jobs.Keys
        invariant forall j | j in w.jobs :: jobs[j] == if j in left then w.jobs[j] else Reconcile(w, w.jobs[j])
        invariant active == set j | j in w.jobs && j !in left && Active(w, w.jobs[j])
      {
        var j :| j in left;
        var current := Reconcile(View(), jobs[j]);
        OnlyClockAndProcesses(w, View(), jobs[j]);
        jobs := jobs[j := current];
        OnlyClockAndProcesses(w, View(), current);
        if Active(View(), current) {
          active := active + {j};
        }
        left := left - {j};
      }
      assert jobs == ReconcileAll(w).jobs;
      forall j | j in jobs ensures Active(View(), jobs[j]) == Active(w, w.jobs[j]) {
        OnlyClockAndProcesses(w, View(), jobs[j]);
        OnlyClockAndProcesses(w, w, w.jobs[j]);
      }
    }

    /** The first half of `start`: refused, or reserved with the lock held on.
        The id and the pid are new ones. */
    method Reserve(limit: nat, j: JobId, directory: string, pid: Pid) returns (answer: Admission)
      requires lock.None? && j !in jobs && pid !in live
      modifies this
      ensures View() == Next(old(View()), limit, Step.Reserve(j, directory, pid))
      ensures answer.ConcurrencyLimit? <==> |ActiveJobs(old(View()))| >= limit
      ensures answer.WorkingDirectoryBusy? <==>
                |ActiveJobs(old(View()))| < limit
                && exists k | k in ActiveJobs(old(View())) :: old(jobs)[k].directory == directory
    {
      hide Active, Reconcile;
      ghost var w := View();
      var active := ReconcileEach();
      ghost var r := View();
      assert r == ReconcileAll(w);
      ReconcilingKeepsDirectories(w);
      if |active| >= limit {
        return ConcurrencyLimit;
      }
      if exists k | k in active :: jobs[k].directory == directory {
        return WorkingDirectoryBusy;
      }
      var document := NewJob(View(), directory);
      jobs := jobs[j := document];
      live := live[pid := born];
      supervisors := supervisors[Process(pid, born) := Supervisor(j, Spawned)];
      born := born + 1;
      lock := Some(Pending(j, pid, document));
      answer := Admitted;
      assert Admits(r, limit, directory);
      assert View() == Admit(r, j, directory, pid);
    }

    /** The second half: the supervisor's identity is recorded. */
    method Record() returns (recorded: bool)
      requires lock.Some?
      modifies `jobs, `lock
      ensures View() == Next(old(View()), 0, Step.Record)
      ensures lock.None?
      ensures recorded <==> old(lock).value.pid in live
      ensures recorded ==>
                var Pending(j, pid, document) := old(lock).value;
                jobs == old(jobs)[j := document.(supervisor := Some(Process(pid, live[pid])))] && Live(View(), jobs[j])
      ensures !recorded ==> jobs == old(jobs)
      ensures recorded && Fits(old(View())) ==>
                var j := old(lock).value.job;
                j in old(jobs) && j in jobs && jobs == old(jobs)[j := old(jobs)[j].(supervisor := jobs[j].supervisor)]
    {
      hide Fits;
      if Fits(View()) {
        LockHolds(View());
      }
      var Pending(j, pid, document) := lock.value;
      lock := None;
      recorded := pid in live;
      if recorded {
        jobs := jobs[j := document.(supervisor := Some(Process(pid, live[pid])))];
      }
    }

    method Status(j: JobId) returns (answer: Option<Job>)
      requires lock.None?
      modifies `jobs
      ensures View() == Next(old(View()), 0, StatusOf(j))
      ensures answer == if j in old(jobs) then Some(jobs[j]) else None
      ensures answer.Some? && answer.value.state.Open() ==> Active(View(), answer.value)
    {
      answer := None;
      if j in jobs {
        var document := jobs[j];
        if document.state.Open() && !Active(View(), document) {
          document := document.(state := Orphaned, finishedAt := Some(now), exitCode := None);
        }
        jobs := jobs[j := document];
        answer := Some(document);
      }
    }

    method Cancel(j: JobId, groupLeader: bool) returns (answer: CancelAnswer)
      requires lock.None?
      modifies `jobs
      ensures View() == Next(old(View()), 0, Step.Cancel(j, groupLeader))
      ensures answer.Signalled? <==>
                j in old(jobs) && old(jobs)[j].state.Open() && !old(jobs)[j].state.Starting?
                && Live(old(View()), old(jobs)[j]) && groupLeader
      ensures answer.Signalled? ==> jobs == old(jobs)[j := old(jobs)[j].(state := Cancelling)] && answer.job == jobs[j]
      ensures answer.NotFound? <==> j !in old(jobs)
      ensures answer.Over? <==> j in old(jobs) && !Active(old(View()), old(jobs)[j])
      ensures answer.NotReady? <==> j in old(jobs) && Active(old(View()), old(jobs)[j]) && old(jobs)[j].state.Starting?
      ensures answer.Over? ==> j in jobs && answer.job == jobs[j] && !answer.job.state.Open()
    {
      if j !in jobs {
        return NotFound;
      }
      var document := Reconcile(View(), jobs[j]);
      jobs := jobs[j := document];
      if !document.state.Open() {
        return Over(document);
      }
      if document.state.Starting? {
        return NotReady;
      }
      if !Live(View(), document) || !groupLeader {
        return StaleProcess;
      }
      jobs := jobs[j := document.(state := Cancelling)];
      answer := Signalled(jobs[j]);
    }

    /** The write that takes no lock. In every reachable state it changes three
        fields of the stored document and nothing else. */
    method Begin(p: Process)
      requires p in supervisors && supervisors[p].phase.Ready?
      modifies `jobs, `supervisors
      ensures View() == Next(old(View()), 0, Begins(p))
      ensures Fits(old(View())) ==>
                var j := old(supervisors)[p].job;
                && j in old(jobs) && old(jobs)[j].state.Starting?
                && jobs == old(jobs)[j := old(jobs)[j].(state := Running, startedAt := Some(now), heartbeatAt := Some(now))]
    {
      hide Fits;
      if Fits(View()) {
        SupervisorHolds(View(), p);
      }
      var Supervisor(j, phase) := supervisors[p];
      var document := phase.read;
      jobs := jobs[j := document.(state := Running, startedAt := Some(now), heartbeatAt := Some(now))];
      supervisors := supervisors[p := Supervisor(j, Working(document.edited, document.toolCalls))];
    }

    /** In every reachable state a running job's stamp and counts are renewed, a
        cancelling job is left alone, and there is no third case. */
    method Heartbeat(p: Process)
      requires lock.None? && p in supervisors && supervisors[p].phase.Working? && supervisors[p].job in jobs
      modifies `jobs
      ensures View() == Next(old(View()), 0, Heartbeats(p))
      ensures Fits(old(View())) ==>
                var Supervisor(j, phase) := supervisors[p];
                && j in jobs && jobs[j].state == old(jobs)[j].state
                && (old(jobs)[j].state.Cancelling? ==> jobs == old(jobs))
                && (!old(jobs)[j].state.Cancelling? ==>
                      old(jobs)[j].state.Running?
                      && jobs == old(jobs)[j := old(jobs)[j].(
                           heartbeatAt := Some(now), edited := phase.edited, toolCalls := phase.toolCalls)])
    {
      hide Fits;
      if Fits(View()) {
        SupervisorHolds(View(), p);
      }
      var Supervisor(j, phase) := supervisors[p];
      var latest := jobs[j];
      if latest.supervisor == Some(p) && Alive(View(), p) && (latest.state.Running? || latest.state.Orphaned?) {
        jobs := jobs[j := latest.(state := Running, heartbeatAt := Some(now),
                                  edited := phase.edited, toolCalls := phase.toolCalls)];
      }
    }

    /** The job is over, and cancelled if a cancel had marked it. */
    method Finish(p: Process, outcome: State, exitCode: int)
      requires lock.None? && p in supervisors && supervisors[p].phase.Working? && supervisors[p].job in jobs
      requires !outcome.Open() && !outcome.Orphaned?
      modifies `jobs, `live, `supervisors
      ensures View() == Next(old(View()), 0, Finishes(p, outcome, exitCode))
      ensures p !in supervisors && p.pid !in live
      ensures var j := old(supervisors)[p].job;
              && j in jobs && !jobs[j].state.Open() && !Active(View(), jobs[j])
              && (jobs[j].state == if old(jobs)[j].state.Cancelling? then Cancelled else outcome)
              && jobs[j].exitCode == Some(exitCode) && jobs - {j} == old(jobs) - {j}
    {
      var Supervisor(j, phase) := supervisors[p];
      var state, latest := outcome, jobs[j];
      if latest.state.Cancelling? {
        state := Cancelled;
      }
      jobs := jobs[j := latest.(state := state, finishedAt := Some(now), exitCode := Some(exitCode),
                                edited := phase.edited, toolCalls := phase.toolCalls)];
      live := live - {p.pid};
      supervisors := map q | q in supervisors && q.pid != p.pid :: supervisors[q];
    }
  }

  /** Whether a document is active depends on the clock and the process table;
      reconciling it does not change the answer. */
  lemma OnlyClockAndProcesses(w: World, v: World, d: Job)
    requires v.now == w.now && v.live == w.live
    ensures Reconcile(v, d) == Reconcile(w, d) && Active(v, d) == Active(w, d) == Active(w, Reconcile(w, d))
  {
  }
}
