/** The job table as the program changes it: each method is one transaction, or
    the part of a caller's transaction that touches the table. */
module TitleStore {
  import opened FusedTitles
  import opened Options

  class FusedTitleStore {
    var jobs: map<TaskId, Job>
    var texts: seq<string>
    var relations: map<RelationId, Relation>
    var passes: map<PassId, Pass>

    function View(): World
      reads this
    {
      World(jobs, texts, relations, passes)
    }

    constructor ()
      ensures View() == EMPTY
    {
      jobs, texts, relations, passes := map[], [], map[], map[];
    }

    method EnqueueJob(task: TaskId, now: Instant)
      modifies `jobs
      ensures View() == Next(old(View()), Enqueue(task, now))
    {
      if task in jobs {
        jobs := jobs[task := jobs[task].(state := Pending, title := None, lastAttempt := None, updatedAt := now)];
      } else {
        jobs := jobs[task := Job(Pending, None, 0, None, now)];
      }
    }

    method ClearJob(task: TaskId, now: Instant)
      modifies `jobs
      ensures View() == Next(old(View()), Clear(task, now))
    {
      if task in jobs {
        jobs := jobs[task := jobs[task].(state := Idle, title := None, lastAttempt := None, updatedAt := now)];
      }
    }

    /** A job without a title is left waiting exactly while some duplicate remains;
        otherwise a job there was is idle, and none is made. */
    method RefreshAfterWithdrawal(task: TaskId, now: Instant)
      modifies `jobs
      ensures View() == Next(old(View()), Refresh(task, now))
      ensures (exists id | id in relations :: LiveDuplicate(relations[id], task)) ==>
                task in jobs && jobs[task].state.Pending? && jobs[task].title.None?
      ensures (forall id | id in relations :: !LiveDuplicate(relations[id], task)) ==>
                && (task in jobs <==> task in old(jobs))
                && (task in jobs ==> jobs[task].state.Idle? && jobs[task].title.None?)
      ensures forall t | t != task :: t in jobs <==> t in old(jobs)
      ensures forall t | t != task && t in jobs :: jobs[t] == old(jobs)[t]
    {
      var remaining := false;
      var left := relations.Keys;
      while left != {} && !remaining
        invariant left <= relations.Keys && jobs == old(jobs)
        invariant remaining <==> exists id | id in relations && id !in left :: LiveDuplicate(relations[id], task)
        decreases left
      {
        var id :| id in left;
        remaining := LiveDuplicate(relations[id], task);
        left := left - {id};
      }
      if remaining {
        EnqueueJob(task, now);
      } else {
        ClearJob(task, now);
      }
    }

    /** Jobs left running for ten minutes wait again. */
    method ReviveStale(now: Instant, staleBefore: Instant)
      modifies `jobs
      ensures View() == ReviveAll(old(View()), now, staleBefore)
    {
      ghost var w := View();
      var left := jobs.Keys;
      while left != {}
        invariant left <= jobs.Keys == w.jobs.Keys
        invariant forall t | t in w.jobs ::
                    jobs[t] == if t in left then w.jobs[t] else Revived(w.jobs[t], now, staleBefore)
      {
        var t :| t in left;
        jobs := jobs[t := Revived(jobs[t], now, staleBefore)];
        left := left - {t};
      }
      assert jobs == ReviveAll(w, now, staleBefore).jobs;
    }

    /** The query for the next job. */
    method OldestPending() returns (picked: Option<TaskId>)
      ensures Oldest(View(), picked)
    {
      picked := None;
      var left := jobs.Keys;
      while left != {}
        invariant left <= jobs.Keys
        invariant match picked
                  case None => forall t | t in jobs && t !in left :: !jobs[t].state.Pending?
                  case Some(t) =>
                    t in jobs && jobs[t].state.Pending?
                    && forall u | u in jobs && u !in left && jobs[u].state.Pending? :: Earlier(View(), t, u)
      {
        var t :| t in left;
        if jobs[t].state.Pending? && (picked.None? || Earlier(View(), t, picked.value)) {
          picked := Some(t);
        }
        left := left - {t};
      }
    }

    /** The first transaction of a pass. */
    method ClaimJob(pass: PassId, now: Instant, later: Instant) returns (picked: Option<TaskId>)
      requires pass !in passes
      modifies `jobs, `passes
      ensures View() == Next(old(View()), Claim(pass, now, later, picked))
      ensures Oldest(ReviveAll(old(View()), now, later - RUNNING_LEASE), picked)
    {
      hide Oldest, ReviveAll, SourceTexts;
      ghost var w := View();
      ReviveStale(now, later - RUNNING_LEASE);
      OthersAreKept(w, now, later - RUNNING_LEASE);
      picked := OldestPending();
      PickedIsThere(View(), picked);
      if picked.Some? {
        var t := picked.value;
        var job := jobs[t];
        jobs := jobs[t := job.(state := Running, attempts := job.attempts + 1, lastAttempt := Some(now), updatedAt := now)];
        passes := passes[pass := Pass(t, SourceTexts(texts, relations, t), now)];
      }
    }

    /** The second transaction: it writes only a job that is running. */
    method PublishTitle(pass: PassId, reply: Reply) returns (completed: nat, retryable: nat)
      requires pass in passes
      modifies `jobs, `passes
      ensures View() == Next(old(View()), Publish(pass, reply))
      ensures completed + retryable <= 1
      ensures completed == 1 <==>
                var t := old(passes)[pass].task;
                t in old(jobs) && old(jobs)[t].state.Running? && t in jobs && jobs[t].state.Ready?
    {
      var Pass(t, asked, now) := passes[pass];
      var title := if reply.Title? && asked != [] then reply.text else "";
      passes := passes - {pass};
      completed, retryable := 0, 0;
      if t in jobs && jobs[t].state.Running? {
        var job := jobs[t];
        if title != "" {
          jobs := jobs[t := job.(state := Ready, title := Some(title), updatedAt := now)];
          completed := 1;
        } else if reply.TimedOut? && asked != [] {
          jobs := jobs[t := job.(state := Pending, title := None, updatedAt := now,
                                 attempts := if job.attempts == 0 then 0 else job.attempts - 1)];
          retryable := 1;
        } else {
          jobs := jobs[t := job.(state := Pending, title := None, updatedAt := now)];
          retryable := 1;
        }
      }
    }
  }

  lemma OthersAreKept(w: World, now: Instant, staleBefore: Instant)
    ensures ReviveAll(w, now, staleBefore) == w.(jobs := ReviveAll(w, now, staleBefore).jobs)
  {
  }

  lemma PickedIsThere(w: World, picked: Option<TaskId>)
    requires Oldest(w, picked)
    ensures picked.Some? ==> picked.value in w.jobs
  {
  }
}
