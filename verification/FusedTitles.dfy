/** Fused-task titles: a pass claims a job in one transaction, asks for a title
    without holding any, and publishes in another. Nothing fences the second
    transaction but the job's state, so passes that overlap matter. */
module FusedTitles {
  import opened Options

  type TaskId = nat
  type PassId = nat
  type RelationId = nat
  type Instant = int

  datatype State = Idle | Pending | Running | Ready
  datatype Job = Job(state: State, title: Option<string>, attempts: nat, lastAttempt: Option<Instant>, updatedAt: Instant)

  /** A pass between its two transactions. */
  datatype Pass = Pass(task: TaskId, texts: seq<string>, now: Instant)

  /** A row of the relation table: `subject` duplicates, or supersedes, `target`. */
  datatype Relation = Relation(subject: TaskId, target: TaskId, duplicate: bool, withdrawn: bool)

  /** Task `t` is the `t`-th of `texts`; tasks are added and never removed. */
  datatype World = World(
    jobs: map<TaskId, Job>, texts: seq<string>, relations: map<RelationId, Relation>, passes: map<PassId, Pass>)

  /** What came of asking; an unusable reply is the empty title. */
  datatype Reply = Title(text: string) | TimedOut | OtherFailure

  datatype Step =
    | Enqueue(task: TaskId, now: Instant)
    | Clear(task: TaskId, now: Instant)
    | Refresh(task: TaskId, now: Instant)
    | WriteText(task: TaskId, text: string)
    | WriteRelation(id: RelationId, relation: Relation)
    | Claim(pass: PassId, now: Instant, later: Instant, picked: Option<TaskId>)
    | Publish(pass: PassId, reply: Reply)
    | Crash(pass: PassId)

  /** Ten minutes, in the clock's microseconds. */
  const RUNNING_LEASE := 600_000_000

  function Enqueued(w: World, task: TaskId, now: Instant): World {
    var attempts := if task in w.jobs then w.jobs[task].attempts else 0;
    w.(jobs := w.jobs[task := Job(Pending, None, attempts, None, now)])
  }

  function Cleared(w: World, task: TaskId, now: Instant): World {
    if task !in w.jobs then w
    else w.(jobs := w.jobs[task := w.jobs[task].(state := Idle, title := None, lastAttempt := None, updatedAt := now)])
  }

  predicate LiveDuplicate(r: Relation, t: TaskId) {
    r.target == t && r.duplicate && !r.withdrawn
  }

  /** Some task is still marked as a duplicate of `t`. */
  predicate StillFused(w: World, t: TaskId) {
    exists id | id in w.relations :: LiveDuplicate(w.relations[id], t)
  }

  /** `refresh_after_withdrawal`. */
  function Refreshed(w: World, t: TaskId, now: Instant): World {
    if StillFused(w, t) then Enqueued(w, t, now) else Cleared(w, t, now)
  }

  function Revived(j: Job, now: Instant, staleBefore: Instant): Job {
    if j.state.Running? && j.updatedAt < staleBefore then j.(state := Pending, updatedAt := now) else j
  }

  function ReviveAll(w: World, now: Instant, staleBefore: Instant): World {
    w.(jobs := map t | t in w.jobs :: Revived(w.jobs[t], now, staleBefore))
  }

  predicate Earlier(w: World, t: TaskId, u: TaskId)
    requires t in w.jobs && u in w.jobs
  {
    w.jobs[t].updatedAt < w.jobs[u].updatedAt || (w.jobs[t].updatedAt == w.jobs[u].updatedAt && t <= u)
  }

  /** The pending job updated first, the lower task first among equals. */
  ghost predicate Oldest(w: World, picked: Option<TaskId>) {
    match picked
    case None => forall t | t in w.jobs :: !w.jobs[t].state.Pending?
    case Some(t) =>
      t in w.jobs && w.jobs[t].state.Pending?
      && forall u | u in w.jobs && w.jobs[u].state.Pending? :: Earlier(w, t, u)
  }

  /** Task `u` is a live duplicate of `t`. */
  predicate Duplicates(relations: map<RelationId, Relation>, u: TaskId, t: TaskId) {
    exists id | id in relations :: LiveDuplicate(relations[id], t) && relations[id].subject == u
  }

  function Text(texts: seq<string>, t: TaskId): seq<string> {
    if t < |texts| && texts[t] != "" then [texts[t]] else []
  }

  /** The texts of the duplicates of `t` among the tasks below `n`, in order. */
  function DuplicateTexts(texts: seq<string>, relations: map<RelationId, Relation>, t: TaskId, n: nat): seq<string> {
    if n == 0 then []
    else DuplicateTexts(texts, relations, t, n - 1) + (if Duplicates(relations, n - 1, t) then Text(texts, n - 1) else [])
  }

  /** `_source_texts`: the task's own text, then those of its duplicates. */
  function SourceTexts(texts: seq<string>, relations: map<RelationId, Relation>, t: TaskId): seq<string> {
    Text(texts, t) + DuplicateTexts(texts, relations, t, |texts|)
  }

  function Claimed(w: World, p: PassId, t: TaskId, now: Instant): World
    requires t in w.jobs
  {
    w.(jobs := w.jobs[t := w.jobs[t].(state := Running, attempts := w.jobs[t].attempts + 1,
                                      lastAttempt := Some(now), updatedAt := now)],
       passes := w.passes[p := Pass(t, SourceTexts(w.texts, w.relations, t), now)])
  }

  /** Without texts nothing is asked, and there is no title. */
  function Usable(pass: Pass, reply: Reply): Option<string> {
    if reply.Title? && reply.text != "" && pass.texts != [] then Some(reply.text) else None
  }

  function Published(w: World, p: PassId, reply: Reply): World
    requires p in w.passes
  {
    var pass := w.passes[p];
    var done := w.(passes := w.passes - {p});
    if pass.task !in w.jobs || !w.jobs[pass.task].state.Running? then done
    else
      var j := w.jobs[pass.task];
      var written :=
        if Usable(pass, reply).Some? then j.(state := Ready, title := Usable(pass, reply), updatedAt := pass.now)
        else if reply.TimedOut? && pass.texts != [] then
          j.(state := Pending, title := None, updatedAt := pass.now, attempts := if j.attempts == 0 then 0 else j.attempts - 1)
        else j.(state := Pending, title := None, updatedAt := pass.now);
      done.(jobs := w.jobs[pass.task := written])
  }

  ghost function Next(w: World, step: Step): World {
    match step
    case Enqueue(t, now) => Enqueued(w, t, now)
    case Clear(t, now) => Cleared(w, t, now)
    case Refresh(t, now) => Refreshed(w, t, now)
    case WriteText(t, text) =>
      if t < |w.texts| then w.(texts := w.texts[t := text])
      else if t == |w.texts| then w.(texts := w.texts + [text])
      else w
    case WriteRelation(id, relation) => w.(relations := w.relations[id := relation])
    case Claim(p, now, later, picked) =>
      var r := ReviveAll(w, now, later - RUNNING_LEASE);
      if p in w.passes || !Oldest(r, picked) then w
      else if picked.None? then r
      else Claimed(r, p, picked.value, now)
    case Publish(p, reply) => if p in w.passes then Published(w, p, reply) else w
    case Crash(p) => w.(passes := w.passes - {p})
  }

  const EMPTY: World := World(map[], [], map[], map[])

  ghost function Before(steps: seq<Step>, n: nat): World
    requires n <= |steps|
  {
    if n == 0 then EMPTY else Next(Before(steps, n - 1), steps[n - 1])
  }

  // ----- what each step does to a job -----

  /** A request: the job waits without a title, from now on, and keeps its attempts;
      withdrawn, it is idle, and only a job that is there is touched. */
  lemma RequestsMean(w: World, t: TaskId, now: Instant)
    ensures var v := Next(w, Enqueue(t, now));
      && v == w.(jobs := v.jobs) && t in v.jobs && v.jobs - {t} == w.jobs - {t}
      && v.jobs[t].state.Pending? && v.jobs[t].title.None? && v.jobs[t].lastAttempt.None? && v.jobs[t].updatedAt == now
      && v.jobs[t].attempts == (if t in w.jobs then w.jobs[t].attempts else 0)
    ensures var v := Next(w, Clear(t, now));
      && v == w.(jobs := v.jobs) && (t in v.jobs <==> t in w.jobs) && v.jobs - {t} == w.jobs - {t}
      && (t in w.jobs ==>
            && v.jobs[t].state.Idle? && v.jobs[t].title.None? && v.jobs[t].lastAttempt.None? && v.jobs[t].updatedAt == now
            && v.jobs[t].attempts == w.jobs[t].attempts)
    ensures Next(w, Refresh(t, now)) ==
      if exists id | id in w.relations ::
           w.relations[id].target == t && w.relations[id].duplicate && !w.relations[id].withdrawn
      then Next(w, Enqueue(t, now)) else Next(w, Clear(t, now))
  {
  }

  /** A job that a claim may take: it waits, or it has run for ten minutes. */
  predicate Waits(j: Job, later: Instant) {
    j.state.Pending? || (j.state.Running? && j.updatedAt < later - 600_000_000)
  }

  /** Since when it waits: a job that is revived waits from now on. */
  function WaitsSince(j: Job, now: Instant): Instant {
    if j.state.Pending? then j.updatedAt else now
  }

  /** A claim takes the job that has waited longest, the lower task first, and none
      only if none waits; it runs from now on, one attempt more. */
  lemma ClaimsMean(w: World, p: PassId, now: Instant, later: Instant, picked: Option<TaskId>)
    requires p !in w.passes && Oldest(ReviveAll(w, now, later - RUNNING_LEASE), picked)
    ensures var v := Next(w, Claim(p, now, later, picked));
      && v.jobs.Keys == w.jobs.Keys && v.texts == w.texts && v.relations == w.relations
      && (picked.None? <==> forall t | t in w.jobs :: !Waits(w.jobs[t], later))
      && (picked.None? ==> v.passes == w.passes)
      && (picked.Some? ==>
            var t := picked.value;
            && t in w.jobs && Waits(w.jobs[t], later)
            && (forall u | u in w.jobs && Waits(w.jobs[u], later) ::
                  || WaitsSince(w.jobs[t], now) < WaitsSince(w.jobs[u], now)
                  || (WaitsSince(w.jobs[t], now) == WaitsSince(w.jobs[u], now) && t <= u))
            && v.jobs[t] == w.jobs[t].(state := Running, attempts := w.jobs[t].attempts + 1, lastAttempt := Some(now), updatedAt := now)
            && v.passes == w.passes[p := Pass(t, SourceTexts(w.texts, w.relations, t), now)])
      && (forall u | u in w.jobs && Some(u) != picked ::
            v.jobs[u] == if w.jobs[u].state.Running? && Waits(w.jobs[u], later)
                         then w.jobs[u].(state := Pending, updatedAt := now) else w.jobs[u])
  {
    hide SourceTexts, Oldest, Waits, WaitsSince, Revived;
    RevivedMeans(w, now, later);
    OldestMeans(w, now, later, picked);
  }

  lemma RevivedMeans(w: World, now: Instant, later: Instant)
    ensures var r := ReviveAll(w, now, later - RUNNING_LEASE);
      forall u | u in w.jobs ::
        && (r.jobs[u].state.Pending? <==> Waits(w.jobs[u], later))
        && (Waits(w.jobs[u], later) ==> r.jobs[u].updatedAt == WaitsSince(w.jobs[u], now))
        && (r.jobs[u] == if w.jobs[u].state.Running? && Waits(w.jobs[u], later)
                         then w.jobs[u].(state := Pending, updatedAt := now) else w.jobs[u])
  {
  }

  lemma OldestMeans(w: World, now: Instant, later: Instant, picked: Option<TaskId>)
    requires Oldest(ReviveAll(w, now, later - RUNNING_LEASE), picked)
    ensures picked.None? <==> forall t | t in w.jobs :: !Waits(w.jobs[t], later)
    ensures picked.Some? ==>
      && picked.value in w.jobs && Waits(w.jobs[picked.value], later)
      && forall u | u in w.jobs && Waits(w.jobs[u], later) ::
           || WaitsSince(w.jobs[picked.value], now) < WaitsSince(w.jobs[u], now)
           || (WaitsSince(w.jobs[picked.value], now) == WaitsSince(w.jobs[u], now) && picked.value <= u)
  {
    hide Waits, WaitsSince, Revived;
    RevivedMeans(w, now, later);
  }

  /** A publication touches its own job alone, and only while that is running: with a
      title, made from some text, it is ready; without one it waits again, and a
      timeout does not count as an attempt. */
  lemma PublicationsMean(w: World, p: PassId, reply: Reply)
    requires p in w.passes
    ensures var v, pass := Next(w, Publish(p, reply)), w.passes[p];
      var t := pass.task;
      && v.passes == w.passes - {p} && v.texts == w.texts && v.relations == w.relations
      && (t !in w.jobs || !w.jobs[t].state.Running? ==> v.jobs == w.jobs)
      && (t in w.jobs && w.jobs[t].state.Running? ==>
            && t in v.jobs && v.jobs - {t} == w.jobs - {t} && v.jobs[t].updatedAt == pass.now
            && v.jobs[t].lastAttempt == w.jobs[t].lastAttempt
            && if pass.texts != [] && reply.Title? && reply.text != "" then
                 v.jobs[t].state.Ready? && v.jobs[t].title == Some(reply.text) && v.jobs[t].attempts == w.jobs[t].attempts
               else
                 && v.jobs[t].state.Pending? && v.jobs[t].title.None?
                 && v.jobs[t].attempts ==
                      if pass.texts != [] && reply.TimedOut? && w.jobs[t].attempts > 0 then w.jobs[t].attempts - 1
                      else w.jobs[t].attempts)
  {
  }

  /** The texts asked about: the task's own, then those of its live duplicates in the
      order of their ids, empty ones left out, each once. */
  lemma SourceTextsAre(texts: seq<string>, relations: map<RelationId, Relation>, t: TaskId) returns (ids: seq<TaskId>)
    ensures var own := if t < |texts| && texts[t] != "" then [texts[t]] else [];
      && |SourceTexts(texts, relations, t)| == |own| + |ids|
      && SourceTexts(texts, relations, t)[..|own|] == own
      && (forall i | 0 <= i < |ids| ::
            ids[i] < |texts| && SourceTexts(texts, relations, t)[|own| + i] == texts[ids[i]])
    ensures forall i, j | 0 <= i < j < |ids| :: ids[i] < ids[j]
    ensures forall u: TaskId :: u in ids <==>
      && u < |texts| && texts[u] != ""
      && exists id | id in relations ::
           relations[id].target == t && relations[id].duplicate && !relations[id].withdrawn && relations[id].subject == u
  {
    ids := DuplicatesBelow(texts, relations, t, |texts|);
    forall u: TaskId ensures Duplicates(relations, u, t) <==>
      exists id | id in relations ::
        relations[id].target == t && relations[id].duplicate && !relations[id].withdrawn && relations[id].subject == u
    {
    }
  }

  lemma {:induction false} DuplicatesBelow(texts: seq<string>, relations: map<RelationId, Relation>, t: TaskId, n: nat)
    returns (ids: seq<TaskId>)
    requires n <= |texts|
    ensures |DuplicateTexts(texts, relations, t, n)| == |ids|
    ensures forall i | 0 <= i < |ids| :: ids[i] < n && DuplicateTexts(texts, relations, t, n)[i] == texts[ids[i]]
    ensures forall i, j | 0 <= i < j < |ids| :: ids[i] < ids[j]
    ensures forall u: TaskId :: u in ids <==> u < n && texts[u] != "" && Duplicates(relations, u, t)
  {
    hide Duplicates;
    if n == 0 {
      ids := [];
    } else {
      ids := DuplicatesBelow(texts, relations, t, n - 1);
      if Duplicates(relations, n - 1, t) && texts[n - 1] != "" {
        ids := ids + [n - 1];
      }
    }
  }

  // ----- ready means titled -----

  predicate Titled(w: World) {
    forall t | t in w.jobs :: w.jobs[t].state.Ready? <==> w.jobs[t].title.Some?
  }

  lemma StepKeepsTitled(w: World, step: Step)
    requires Titled(w)
    ensures Titled(Next(w, step))
  {
    var v := Next(w, step);
    forall t | t in v.jobs ensures v.jobs[t].state.Ready? <==> v.jobs[t].title.Some? {
      assert t in w.jobs ==> (w.jobs[t].state.Ready? <==> w.jobs[t].title.Some?);
    }
  }

  /** Whatever runs, a job is ready exactly when it has a title, as the table's
      own constraint demands of every write. */
  lemma {:induction false} ReadyExactlyWhenTitled(steps: seq<Step>, n: nat)
    requires n <= |steps|
    ensures Titled(Before(steps, n))
  {
    hide Next;
    if n > 0 {
      ReadyExactlyWhenTitled(steps, n - 1);
      StepKeepsTitled(Before(steps, n - 1), steps[n - 1]);
    }
  }

  // ----- where a published title comes from -----

  /** Step `i` is the claim of task `t` by pass `p`. */
  ghost predicate Claims(steps: seq<Step>, i: nat, p: PassId, t: TaskId)
    requires i < |steps|
  {
    && steps[i].Claim? && steps[i].pass == p && steps[i].picked == Some(t)
    && p !in Before(steps, i).passes && p in Before(steps, i + 1).passes
    && Before(steps, i + 1).passes[p].task == t
    && Before(steps, i + 1).passes[p].texts == SourceTexts(Before(steps, i).texts, Before(steps, i).relations, t)
  }

  /** Step `k` asks for a new title of `t`, or for none. */
  predicate Asks(steps: seq<Step>, k: nat, t: TaskId)
    requires k < |steps|
  {
    (steps[k].Enqueue? || steps[k].Clear? || steps[k].Refresh?) && steps[k].task == t
  }

  ghost predicate AsksBetween(steps: seq<Step>, i: nat, j: nat, t: TaskId)
    requires j <= |steps|
  {
    exists k | i < k < j :: Asks(steps, k, t)
  }

  /** Another pass claims `t` strictly between. */
  ghost predicate Reclaimed(steps: seq<Step>, i: nat, j: nat, t: TaskId)
    requires j <= |steps|
  {
    exists k | i < k < j :: steps[k].Claim? && Claims(steps, k, steps[k].pass, t)
  }

  /** Pass `p`, in flight before step `n`, was started by the claim at `i` and has
      been in flight ever since. */
  ghost predicate StartedAt(steps: seq<Step>, i: nat, n: nat, p: PassId)
    requires i < n <= |steps|
  {
    && p in Before(steps, n).passes && Claims(steps, i, p, Before(steps, n).passes[p].task)
    && forall k | i < k <= n :: p in Before(steps, k).passes && Before(steps, k).passes[p] == Before(steps, n).passes[p]
  }

  lemma PassesOnlyStartByClaim(w: World, step: Step, p: PassId)
    ensures p in Next(w, step).passes && (p !in w.passes || Next(w, step).passes[p] != w.passes[p]) ==>
      && step.Claim? && step.pass == p && p !in w.passes && step.picked.Some?
      && Next(w, step).passes[p].task == step.picked.value
      && Next(w, step).passes[p].texts == SourceTexts(w.texts, w.relations, step.picked.value)
  {
    hide Oldest;
  }

  lemma {:induction false} PassStarts(steps: seq<Step>, n: nat, p: PassId) returns (i: nat)
    requires n <= |steps| && p in Before(steps, n).passes
    ensures i < n && StartedAt(steps, i, n, p)
  {
    hide Next;
    PassesOnlyStartByClaim(Before(steps, n - 1), steps[n - 1], p);
    if p in Before(steps, n - 1).passes && Before(steps, n - 1).passes[p] == Before(steps, n).passes[p] {
      i := PassStarts(steps, n - 1, p);
    } else {
      i := n - 1;
    }
  }

  /** A job runs only because of a claim that nothing has asked against since. */
  lemma JobsOnlyRunByClaim(w: World, step: Step, t: TaskId)
    ensures var v := Next(w, step);
      t in v.jobs && v.jobs[t].state.Running? ==>
        && !((step.Enqueue? || step.Clear? || step.Refresh?) && step.task == t)
        && ((t in w.jobs && w.jobs[t].state.Running?)
            || (step.Claim? && step.pass !in w.passes && step.pass in v.passes && step.picked == Some(t)
                && v.passes[step.pass].task == t && v.passes[step.pass].texts == SourceTexts(w.texts, w.relations, t)))
  {
    hide Oldest;
  }

  lemma {:induction false} RunningSince(steps: seq<Step>, n: nat, t: TaskId) returns (k: nat)
    requires n <= |steps| && t in Before(steps, n).jobs && Before(steps, n).jobs[t].state.Running?
    ensures k < n && steps[k].Claim? && Claims(steps, k, steps[k].pass, t) && !AsksBetween(steps, k, n, t)
  {
    hide Next;
    var w := Before(steps, n - 1);
    JobsOnlyRunByClaim(w, steps[n - 1], t);
    if t in w.jobs && w.jobs[t].state.Running? {
      k := RunningSince(steps, n - 1, t);
    } else {
      k := n - 1;
    }
  }

  /** Step `j` publishes the title that task `t` then has. */
  ghost predicate Publishes(steps: seq<Step>, j: nat, t: TaskId)
    requires j < |steps|
  {
    && steps[j].Publish? && steps[j].pass in Before(steps, j).passes
    && Before(steps, j).passes[steps[j].pass].task == t
    && t in Before(steps, j).jobs && Before(steps, j).jobs[t].state.Running?
    && Usable(Before(steps, j).passes[steps[j].pass], steps[j].reply).Some?
  }

  lemma ReadyOnlyByPublishing(steps: seq<Step>, n: nat, t: TaskId)
    requires 0 < n <= |steps| && t in Before(steps, n).jobs && Before(steps, n).jobs[t].state.Ready?
    ensures !Asks(steps, n - 1, t)
    ensures var w := Before(steps, n - 1);
      || (t in w.jobs && w.jobs[t] == Before(steps, n).jobs[t])
      || (Publishes(steps, n - 1, t) && Before(steps, n).jobs[t].title == Some(steps[n - 1].reply.text))
  {
    hide Oldest;
  }

  /** A ready title, whatever ran: it was published at some step `j`, nobody has
      asked for another since, and it was made from the texts read at the claim
      `i` of the pass that published it. If somebody asked between `i` and `j`,
      then another pass claimed it in between. */
  lemma {:induction false} ReadyTitleComesFrom(steps: seq<Step>, n: nat, t: TaskId) returns (i: nat, j: nat)
    requires n <= |steps| && t in Before(steps, n).jobs && Before(steps, n).jobs[t].state.Ready?
    ensures i < j < n && Publishes(steps, j, t) && Before(steps, n).jobs[t].title == Some(steps[j].reply.text)
    ensures Claims(steps, i, steps[j].pass, t) && StartedAt(steps, i, j, steps[j].pass)
    ensures forall k | j <= k < n :: !Asks(steps, k, t)
    ensures AsksBetween(steps, i, j, t) ==> Reclaimed(steps, i, j, t)
  {
    hide Next;
    ReadyOnlyByPublishing(steps, n, t);
    var w := Before(steps, n - 1);
    if t in w.jobs && w.jobs[t] == Before(steps, n).jobs[t] {
      i, j := ReadyTitleComesFrom(steps, n - 1, t);
    } else {
      j := n - 1;
      i := PassStarts(steps, j, steps[j].pass);
      var k := RunningSince(steps, j, t);
      if k < i {
        assert !AsksBetween(steps, i, j, t);
      } else if k > i {
        assert Reclaimed(steps, i, j, t);
      }
    }
  }

  /** No pass claims while another is in flight. */
  ghost predicate Serialized(steps: seq<Step>) {
    forall k | 0 <= k < |steps| && steps[k].Claim? :: Before(steps, k).passes == map[]
  }

  /** With one pass at a time a ready title is never out of date: it was published
      at `j` by the pass that claimed at `i`, from the texts read there, and no
      enqueue, clear or refresh has followed that claim. */
  lemma SerializedTitlesAreFresh(steps: seq<Step>, t: TaskId) returns (i: nat, j: nat)
    requires Serialized(steps)
    requires t in Before(steps, |steps|).jobs && Before(steps, |steps|).jobs[t].state.Ready?
    ensures i < j < |steps| && Publishes(steps, j, t)
    ensures Before(steps, |steps|).jobs[t].title == Some(steps[j].reply.text)
    ensures Claims(steps, i, steps[j].pass, t) && StartedAt(steps, i, j, steps[j].pass)
    ensures forall k | i < k < |steps| :: !Asks(steps, k, t)
  {
    hide Next, Before;
    i, j := ReadyTitleComesFrom(steps, |steps|, t);
    forall k | i < k < j ensures !steps[k].Claim? {
      assert steps[j].pass in Before(steps, k).passes;
    }
  }

  /** Step `k` claims `t` between `i` and `j`, after somebody asked. */
  ghost predicate ClaimsAfterAsking(steps: seq<Step>, i: nat, k: nat, j: nat, t: TaskId)
    requires j <= |steps|
  {
    i < k < j && steps[k].Claim? && Claims(steps, k, steps[k].pass, t) && AsksBetween(steps, i, k, t)
  }

  /** A published title is out of date exactly when, between the claim it was made
      at and its publication, somebody asked and then another pass claimed. */
  lemma OutdatedIff(steps: seq<Step>, i: nat, j: nat, t: TaskId)
    requires i < j < |steps| && Publishes(steps, j, t) && StartedAt(steps, i, j, steps[j].pass)
    ensures AsksBetween(steps, i, j, t) <==> exists k :: ClaimsAfterAsking(steps, i, k, j, t)
  {
    hide Next, Before, Claims, Publishes;
    if AsksBetween(steps, i, j, t) {
      PublishedWhileRunning(steps, j, t);
      var k := RunningSince(steps, j, t);
      var a :| i < a < j && Asks(steps, a, t);
      assert a != k;
      assert a < k;
      assert ClaimsAfterAsking(steps, i, k, j, t);
    }
    forall k | ClaimsAfterAsking(steps, i, k, j, t) ensures AsksBetween(steps, i, j, t) {
      var a :| i < a < k && Asks(steps, a, t);
    }
  }

  lemma PublishedWhileRunning(steps: seq<Step>, j: nat, t: TaskId)
    requires j < |steps| && Publishes(steps, j, t)
    ensures t in Before(steps, j).jobs && Before(steps, j).jobs[t].state.Running?
  {
  }

  function OverlapSteps(a: string, b: string, x: string, y: string): seq<Step> {
    [WriteText(0, a), Enqueue(0, 0), Claim(0, 1, 1, Some(0)), WriteText(0, b),
     Enqueue(0, 2), Claim(1, 3, 3, Some(0)), Publish(0, Title(x)), Publish(1, Title(y))]
  }

  function Overlapped(a: string, b: string): World {
    World(map[0 := Job(Pending, None, 1, None, 2)], [b], map[], map[0 := Pass(0, [a], 1)])
  }

  lemma OwnTextOnly(text: string)
    requires text != ""
    ensures SourceTexts([text], map[], 0) == [text]
  {
    assert DuplicateTexts([text], map[], 0, 1) == [];
  }

  lemma FirstPassClaims(a: string, b: string, x: string, y: string)
    requires a != "" && b != ""
    ensures var steps := OverlapSteps(a, b, x, y);
      && Before(steps, 2).texts == [a] && Claims(steps, 2, 0, 0)
      && Before(steps, 5) == Overlapped(a, b)
  {
    hide Before, SourceTexts;
    var steps := OverlapSteps(a, b, x, y);
    var w1 := World(map[], [a], map[], map[]);
    var w2 := World(map[0 := Job(Pending, None, 0, None, 0)], [a], map[], map[]);
    var w3 := World(map[0 := Job(Running, None, 1, Some(1), 1)], [a], map[], map[0 := Pass(0, [a], 1)]);
    var w4 := w3.(texts := [b]);
    StepTo(steps, 0, EMPTY, w1);
    StepTo(steps, 1, w1, w2);
    assert ReviveAll(w2, 1, 1 - RUNNING_LEASE) == w2;
    OwnTextOnly(a);
    StepTo(steps, 2, w2, w3);
    StepTo(steps, 3, w3, w4);
    StepTo(steps, 4, w4, Overlapped(a, b));
  }

  /** Two passes that overlap on a task: the first publishes a title made from
      the old text after an enqueue, the second one's title is then dropped, and
      no job is left to mend it. */
  lemma OverlappingPassesPublishOldTitles(a: string, b: string, x: string, y: string)
    requires a != "" && b != "" && x != "" && y != ""
    ensures var steps := OverlapSteps(a, b, x, y);
      && Asks(steps, 4, 0) && Claims(steps, 2, 0, 0) && Publishes(steps, 6, 0)
      && Before(steps, 2).texts == [a] && Before(steps, 5).texts == [b]
      && var w := Before(steps, 8);
      && w.passes == map[] && w.jobs.Keys == {0} && w.jobs[0].state.Ready? && w.jobs[0].title == Some(x)
  {
    hide Before, Claims, SourceTexts;
    FirstPassClaims(a, b, x, y);
    var steps := OverlapSteps(a, b, x, y);
    var w5 := Overlapped(a, b);
    var w6 := World(map[0 := Job(Running, None, 2, Some(3), 3)], [b], map[],
                    map[0 := Pass(0, [a], 1), 1 := Pass(0, [b], 3)]);
    var w7 := World(map[0 := Job(Ready, Some(x), 2, Some(3), 1)], [b], map[], map[1 := Pass(0, [b], 3)]);
    assert ReviveAll(w5, 3, 3 - RUNNING_LEASE) == w5;
    OwnTextOnly(b);
    StepTo(steps, 5, w5, w6);
    StepTo(steps, 6, w6, w7);
    StepTo(steps, 7, w7, w7.(passes := map[]));
  }

  lemma StepTo(steps: seq<Step>, n: nat, w: World, v: World)
    requires n < |steps| && (if n == 0 then w == EMPTY else Before(steps, n) == w) && Next(w, steps[n]) == v
    ensures Before(steps, n) == w && Before(steps, n + 1) == v
  {
  }
}
