/** Parsed task candidates and their canonical payloads. */
module Candidate {
  import opened Json
  import opened ContractUpgrade
  import opened Options

  /** The source-owned action a candidate addresses, whatever its revision. */
  datatype Identity = Identity(system: string, kind: string, recordId: string, itemId: string)

  datatype Lifecycle = Lifecycle(state: string, generation: nat, changedAt: Option<string>, reason: Option<string>)

  /** `extra` holds the fields that no comparison reads. */
  datatype Task = Task(text: string, project: Option<string>, owner: Option<string>, extra: map<string, Json>)

  /** `evidence`, `history` and `extra` are kept as canonical documents. */
  datatype TaskCandidate = TaskCandidate(
    schemaVersion: nat, identity: Identity, revision: string, history: Option<Json>,
    task: Task, evidence: Json, createdAt: string, lifecycle: Lifecycle)

  const SUPPORTED_VERSIONS: set<nat> := {1, 2, 3, 4, 5, 6, 7, 8, 9, 11, 12}
  const LIFECYCLE_VERSIONS: set<nat> := {3, 7, 8, 9, 11, 12}
  const PROJECTLESS_VERSIONS: set<nat> := {2, 3}
  const HISTORY_VERSIONS: set<nat> := {9, 11, 12}

  /** The id is a digest of this text; collisions are not modelled. */
  function CandidateIdFor(identity: Identity): string {
    "tc_[\"" + identity.system + "\",\"" + identity.kind + "\",\"" + identity.recordId + "\",\""
    + identity.itemId + "\"]"
  }

  /** What `parse_task_candidate` promises the inbox about its result. */
  predicate Parsed(c: TaskCandidate) {
    && c.schemaVersion in SUPPORTED_VERSIONS
    && c.task.extra.Keys !! {"text", "project", "owner"}
    && (c.schemaVersion == 1 ==> c.task.project.Some?)
    && (c.schemaVersion in PROJECTLESS_VERSIONS ==> c.task.project.None?)
    && (c.history.Some? <==> c.schemaVersion in HISTORY_VERSIONS)
    && if c.schemaVersion in LIFECYCLE_VERSIONS then
         c.lifecycle.state in {"active", "withdrawn"} && c.lifecycle.generation >= 1 && c.lifecycle.changedAt.Some?
       else
         c.lifecycle == Lifecycle("active", 0, None, None)
  }

  /** The canonical payload: two candidates are stored as the same text exactly
      when these documents are equal. */
  function Payload(c: TaskCandidate): Json {
    var document := map[
      "schema" := Str("foxhound.task-candidate"),
      "schema_version" := Num(c.schemaVersion as real),
      "candidate_id" := Str(CandidateIdFor(c.identity)),
      "source" := Obj(SourceDocument(c)),
      "task" := Obj(TaskDocument(c.task)),
      "evidence" := c.evidence,
      "created_at" := Str(c.createdAt)];
    Obj(if c.schemaVersion in LIFECYCLE_VERSIONS
        then document["lifecycle" := Obj(LifecycleDocument(c.lifecycle))]
        else document)
  }

  function SourceDocument(c: TaskCandidate): map<string, Json> {
    var document := map[
      "system" := Str(c.identity.system), "kind" := Str(c.identity.kind),
      "record_id" := Str(c.identity.recordId), "item_id" := Str(c.identity.itemId),
      "revision" := Str(c.revision)];
    if c.history.Some? then document["history" := c.history.value] else document
  }

  function LifecycleDocument(l: Lifecycle): map<string, Json> {
    var document := map[
      "state" := Str(l.state), "generation" := Num(l.generation as real),
      "changed_at" := if l.changedAt.Some? then Str(l.changedAt.value) else Null];
    if l.reason.Some? then document["reason" := Str(l.reason.value)] else document
  }

  function TaskDocument(t: Task): map<string, Json> {
    var document := t.extra[
      "text" := Str(t.text)]["owner" := if t.owner.Some? then Str(t.owner.value) else Null];
    if t.project.Some? then document["project" := Str(t.project.value)] else document
  }

  /** The task fields both task systems hold, whose digest
      `candidate_comparable_digest` returns. */
  datatype Comparable = Comparable(text: string, project: Option<string>, owner: Option<string>)

  function ComparableOf(c: TaskCandidate): Comparable {
    Comparable(c.task.text, c.task.project, c.task.owner)
  }

  /** The relation the inbox consults between a stored and an incoming candidate. */
  predicate IsContractUpgrade(current: TaskCandidate, incoming: TaskCandidate) {
    IsCumulativeContractUpgrade(Payload(current), Payload(incoming)) == Upgrade
  }

  /** A stored payload never makes the upgrade test raise. */
  lemma PayloadsNeverRaise(current: TaskCandidate, incoming: TaskCandidate)
    ensures IsCumulativeContractUpgrade(Payload(current), Payload(incoming)) != Raises
  {
    hide SharedShape, PyEq;
  }

  lemma SourceDocumentIsInjective(c: TaskCandidate, d: TaskCandidate)
    requires SourceDocument(c) == SourceDocument(d)
    ensures c.identity == d.identity && c.revision == d.revision && c.history == d.history
  {
    var x, y := SourceDocument(c), SourceDocument(d);
    assert x["system"] == y["system"] && x["kind"] == y["kind"];
    assert x["record_id"] == y["record_id"] && x["item_id"] == y["item_id"];
    assert x["revision"] == y["revision"];
    assert "history" in x <==> "history" in y;
    if c.history.Some? {
      assert x["history"] == y["history"];
    }
  }

  lemma LifecycleDocumentIsInjective(k: Lifecycle, l: Lifecycle)
    requires LifecycleDocument(k) == LifecycleDocument(l)
    ensures k == l
  {
    var x, y := LifecycleDocument(k), LifecycleDocument(l);
    assert x["state"] == y["state"] && x["generation"] == y["generation"] && x["changed_at"] == y["changed_at"];
    assert "reason" in x <==> "reason" in y;
    if k.reason.Some? {
      assert x["reason"] == y["reason"];
    }
  }

  lemma TaskDocumentIsInjective(t: Task, u: Task)
    requires t.extra.Keys !! {"text", "project", "owner"} && u.extra.Keys !! {"text", "project", "owner"}
    requires TaskDocument(t) == TaskDocument(u)
    ensures t == u
  {
    var x, y := TaskDocument(t), TaskDocument(u);
    assert x["text"] == y["text"] && x["owner"] == y["owner"];
    assert "project" in x <==> "project" in y;
    if t.project.Some? {
      assert x["project"] == y["project"];
    }
    assert t.extra == x - {"text", "project", "owner"};
    assert u.extra == y - {"text", "project", "owner"};
  }

  /** Equal stored payloads mean equal candidates, so a stored payload can
      stand for the candidate it was written from. */
  lemma PayloadIsInjective(c: TaskCandidate, d: TaskCandidate)
    requires Parsed(c) && Parsed(d)
    requires Payload(c) == Payload(d)
    ensures c == d
  {
    var x, y := Payload(c).fields, Payload(d).fields;
    assert x["schema_version"] == y["schema_version"];
    assert x["source"] == y["source"] && x["task"] == y["task"];
    assert x["evidence"] == y["evidence"] && x["created_at"] == y["created_at"];
    SourceDocumentIsInjective(c, d);
    TaskDocumentIsInjective(c.task, d.task);
    if c.schemaVersion in LIFECYCLE_VERSIONS {
      assert x["lifecycle"] == y["lifecycle"];
      LifecycleDocumentIsInjective(c.lifecycle, d.lifecycle);
    }
  }
}
