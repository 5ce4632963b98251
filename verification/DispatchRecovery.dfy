/** How a job that has lost its supervisor gives back its slot and directory, and
    how one that has not comes to run. */
module DispatchRecovery {
  import opened Options
  import opened Dispatch

  /** Some process has the identity recorded in the document. */
  predicate SupervisorThere(w: World, d: Job) {
    d.supervisor.Some? && d.supervisor.value.pid in w.live
    && w.live[d.supervisor.value.pid] == d.supervisor.value.start
  }

  /** The last heartbeat, or without one the creation, was in the last 30 seconds
      or is no more than 5 seconds ahead. */
  predicate SeenLately(w: World, d: Job) {
    var seen := if d.heartbeatAt.Some? then d.heartbeatAt.value else d.createdAt;
    w.now - 30 <= seen <= w.now + 5
  }

  /** Exactly when a reconciled document is orphaned, and how; when not, it is as
      it was. */
  lemma OrphanedIff(w: World, d: Job)
    ensures var r := Reconcile(w, d);
      var open := d.state.Starting? || d.state.Running? || d.state.Cancelling?;
      && (r != d <==> open && !SupervisorThere(w, d) && !SeenLately(w, d))
      && (r != d ==> r == d.(state := Orphaned, finishedAt := Some(w.now), exitCode := None))
      && (Active(w, d) <==> open && (SupervisorThere(w, d) || SeenLately(w, d)))
  {
  }

  /** The supervisor that the document of `j` names has ended. */
  function SupervisorEnds(w: World, limit: nat, j: JobId, seconds: nat): World
    requires j in w.jobs && w.jobs[j].supervisor.Some?
  {
    Next(Next(w, limit, ProcessEnds(w.jobs[j].supervisor.value.pid)), limit, Tick(seconds))
  }

  lemma LostJobsFade(w: World, limit: nat, j: JobId, seconds: nat)
    requires Fits(w) && j in w.jobs && w.jobs[j].supervisor.Some? && seconds > 30
    ensures var v := SupervisorEnds(w, limit, j, seconds);
      && v.jobs == w.jobs && v.lock == w.lock && v.live.Keys <= w.live.Keys && v.now == w.now + seconds
      && ActiveJobs(v) <= ActiveJobs(w) - {j}
      && (forall k | k in w.jobs :: Active(v, w.jobs[k]) ==> Active(w, w.jobs[k]))
  {
    var v := SupervisorEnds(w, limit, j, seconds);
    forall k | k in w.jobs ensures Active(v, w.jobs[k]) ==> Active(w, w.jobs[k]) {
      JobHolds(w, k);
      ActivityOnlyFades(w, v, w.jobs[k]);
    }
    JobHolds(w, j);
  }

  /** A job whose supervisor has ended more than 30 seconds ago holds neither its slot
      nor its directory: a start is let in exactly as if it were not there, and
      leaves it orphaned. */
  lemma LostJobsGiveWay(w: World, limit: nat, j: JobId, seconds: nat, k: JobId, directory: string, pid: Pid)
    requires Fits(w) && w.lock.None? && j in w.jobs && w.jobs[j].state.Open() && w.jobs[j].supervisor.Some?
    requires seconds > 30 && k !in w.jobs && pid !in w.live
    requires |ActiveJobs(w) - {j}| < limit
    requires forall i | i in ActiveJobs(w) - {j} :: w.jobs[i].directory != directory
    ensures var v := SupervisorEnds(w, limit, j, seconds);
      var u := Next(v, limit, Reserve(k, directory, pid));
      && k in u.jobs && u.jobs[k].state.Starting? && u.jobs[k].directory == directory && u.lock.Some?
      && u.jobs[k].createdAt == v.now
      && u.jobs[j] == w.jobs[j].(state := Orphaned, finishedAt := Some(v.now), exitCode := None)
  {
    hide Active, Fits;
    var v := SupervisorEnds(w, limit, j, seconds);
    LostJobsFade(w, limit, j, seconds);
    SmallerSet(ActiveJobs(v), ActiveJobs(w) - {j});
    var r := ReconcileAll(v);
    ReconcilingKeepsDirectories(v);
    assert j !in ActiveJobs(v);
    assert Admits(r, limit, directory) by {
      forall i | i in r.jobs && Active(r, r.jobs[i]) ensures r.jobs[i].directory != directory {
        assert i in ActiveJobs(r);
      }
    }
  }

  /** An admitted job comes to run: once its start has recorded the supervisor and
      the supervisor has read that, its first write makes the job running, with the
      supervisor's identity and two stamps of that moment. */
  lemma AdmittedJobsRun(w: World, limit: nat, j: JobId, directory: string, pid: Pid)
    requires w.lock.None? && j !in w.jobs && pid !in w.live && Admits(ReconcileAll(w), limit, directory)
    ensures var p := Process(pid, w.born);
      var u := Next(Next(Next(w, limit, Reserve(j, directory, pid)), limit, Record), limit, Reads(p));
      var v := Next(u, limit, Begins(p));
      && u.lock.None? && j in v.jobs && v.jobs[j].state.Running? && v.jobs[j].supervisor == Some(p)
      && v.jobs[j].directory == directory && v.jobs[j].createdAt == w.now
      && v.jobs[j].startedAt == Some(w.now) && v.jobs[j].heartbeatAt == Some(w.now)
      && p in v.supervisors && v.supervisors[p].job == j && v.supervisors[p].phase.Working? && Active(v, v.jobs[j])
  {
    hide Admits, Reconcile;
    var p := Process(pid, w.born);
    var a := Next(w, limit, Reserve(j, directory, pid));
    assert a == Admit(ReconcileAll(w), j, directory, pid);
    var b := Next(a, limit, Record);
    assert b.jobs[j] == NewJob(w, directory).(supervisor := Some(p)) && b.supervisors[p] == Supervisor(j, Spawned);
    var c := Next(b, limit, Reads(p));
    assert c.supervisors[p] == Supervisor(j, Ready(b.jobs[j])) && c.jobs == b.jobs;
  }
}
