/** The additive contract-upgrade relation between two payloads of one source
    state (`_is_cumulative_contract_upgrade`). */
module ContractUpgrade {
  import opened Json

  const CUMULATIVE_VERSION := 7.0
  const STRUCTURED_TASK_VERSION := 8.0
  const SOURCE_HISTORY_VERSION := 9.0
  const PERSON_IDENTITY_HISTORY_VERSION := 11.0
  const WORKING_GROUP_VERSION := 12.0

  const CUMULATIVE_VERSIONS: set<real> :=
    {CUMULATIVE_VERSION, STRUCTURED_TASK_VERSION, SOURCE_HISTORY_VERSION,
     PERSON_IDENTITY_HISTORY_VERSION, WORKING_GROUP_VERSION}

  /** `Raises`: an array or object as version is unhashable in a set test. */
  datatype Verdict = Upgrade | NoUpgrade | Raises

  /** The decoded `schema_version` of an object document, if it has one. */
  predicate HasVersion(j: Json) {
    j.Obj? && "schema_version" in j.fields
  }

  predicate Unhashable(j: Json) {
    j.Arr? || j.Obj?
  }

  predicate Cumulative(version: Json) {
    version.Num? && version.n in CUMULATIVE_VERSIONS
  }

  function IsCumulativeContractUpgrade(current: Json, incoming: Json): Verdict {
    if !HasVersion(current) || !HasVersion(incoming) then NoUpgrade
    else
      var currentVersion := current.fields["schema_version"];
      var incomingVersion := incoming.fields["schema_version"];
      if Unhashable(currentVersion) then Raises
      else if !Cumulative(currentVersion) then NoUpgrade
      else if Unhashable(incomingVersion) then Raises
      else if !Cumulative(incomingVersion) then NoUpgrade
      else if incomingVersion.n <= currentVersion.n then NoUpgrade
      else if PyEq(Obj(SharedShape(currentVersion.n, current.fields)),
                   Obj(SharedShape(currentVersion.n, incoming.fields))) then Upgrade
      else NoUpgrade
  }

  predicate Upgrades(current: Json, incoming: Json) {
    IsCumulativeContractUpgrade(current, incoming) == Upgrade
  }

  /** What a document of contract `version` shares with every later contract. */
  function SharedShape(version: real, document: map<string, Json>): map<string, Json> {
    var normalized := document - {"schema_version"};
    if "source" in normalized && normalized["source"].Obj? && "task" in normalized && normalized["task"].Obj? then
      var source := normalized["source"].fields - {"revision", "history"};
      var task := SharedTask(version, normalized["task"].fields);
      var stripped := normalized["source" := Obj(source)]["task" := Obj(task)];
      if "lifecycle" in stripped && stripped["lifecycle"].Obj? then
        stripped["lifecycle" := Obj(stripped["lifecycle"].fields - {"generation"})]
      else stripped
    else normalized
  }

  function SharedTask(version: real, task: map<string, Json>): map<string, Json> {
    var unstructured :=
      if version < STRUCTURED_TASK_VERSION then task - {"object", "action", "participants", "confidence"} else task;
    var anonymous :=
      if version < PERSON_IDENTITY_HISTORY_VERSION then WithoutPersonIds(unstructured) else unstructured;
    if version < WORKING_GROUP_VERSION then anonymous - {"working_group"} else anonymous
  }

  function WithoutPersonIds(task: map<string, Json>): map<string, Json> {
    var owned :=
      if "owner_ref" in task && task["owner_ref"].Obj? then
        task["owner_ref" := WithoutPersonId(task["owner_ref"])]
      else task;
    if "participants" in owned && owned["participants"].Arr? then
      owned["participants" := WithoutParticipantIds(owned["participants"])]
    else owned
  }

  function WithoutPersonId(reference: Json): Json {
    if reference.Obj? then Obj(reference.fields - {"person_id"}) else reference
  }

  function WithoutParticipantIds(participants: Json): Json
    requires participants.Arr?
  {
    Arr(seq(|participants.items|, i requires 0 <= i < |participants.items| =>
      WithoutPersonId(participants.items[i])))
  }

  // ----- the shape, field by field -----

  predicate Structured(document: map<string, Json>) {
    "source" in document && document["source"].Obj? && "task" in document && document["task"].Obj?
  }

  /** What a structured document's shape keeps of one top-level field. */
  function SharedField(version: real, name: string, value: Json): Json {
    if !value.Obj? then value
    else if name == "source" then Obj(value.fields - {"revision", "history"})
    else if name == "task" then Obj(SharedTask(version, value.fields))
    else if name == "lifecycle" then Obj(value.fields - {"generation"})
    else value
  }

  lemma SharedShapeFieldwise(version: real, document: map<string, Json>)
    ensures SharedShape(version, document) ==
      if Structured(document) then
        map k | k in document.Keys - {"schema_version"} :: SharedField(version, k, document[k])
      else document - {"schema_version"}
  {
  }

  // ----- stripping commutes with Python equality -----

  lemma RepOfRemoval(fields: map<string, Json>, names: set<string>)
    ensures RepFields(fields - names) == RepFields(fields) - names
  {
  }

  lemma RepOfUpdate(fields: map<string, Json>, name: string, value: Json)
    ensures RepFields(fields[name := value]) == RepFields(fields)[name := Rep(value)]
  {
  }

  lemma RepOfPersonId(reference: Json)
    ensures Rep(WithoutPersonId(reference)) == WithoutPersonId(Rep(reference))
  {
    if reference.Obj? {
      RepOfRemoval(reference.fields, {"person_id"});
    }
  }

  lemma RepOfParticipantIds(participants: Json)
    requires participants.Arr?
    ensures Rep(participants).Arr?
    ensures Rep(WithoutParticipantIds(participants)) == WithoutParticipantIds(Rep(participants))
  {
    var left := Rep(WithoutParticipantIds(participants)).items;
    var right := WithoutParticipantIds(Rep(participants)).items;
    forall i | 0 <= i < |left| ensures left[i] == right[i] {
      RepOfPersonId(participants.items[i]);
    }
  }

  lemma RepOfPersonIds(task: map<string, Json>)
    ensures RepFields(WithoutPersonIds(task)) == WithoutPersonIds(RepFields(task))
  {
    var owned := task;
    if "owner_ref" in task && task["owner_ref"].Obj? {
      RepOfPersonId(task["owner_ref"]);
      RepOfUpdate(task, "owner_ref", WithoutPersonId(task["owner_ref"]));
      owned := task["owner_ref" := WithoutPersonId(task["owner_ref"])];
    }
    if "participants" in owned && owned["participants"].Arr? {
      RepOfParticipantIds(owned["participants"]);
      RepOfUpdate(owned, "participants", WithoutParticipantIds(owned["participants"]));
    }
  }

  lemma RepOfSharedTask(version: real, task: map<string, Json>)
    ensures RepFields(SharedTask(version, task)) == SharedTask(version, RepFields(task))
  {
    var structure := {"object", "action", "participants", "confidence"};
    RepOfRemoval(task, structure);
    var unstructured := if version < STRUCTURED_TASK_VERSION then task - structure else task;
    RepOfPersonIds(unstructured);
    var anonymous :=
      if version < PERSON_IDENTITY_HISTORY_VERSION then WithoutPersonIds(unstructured) else unstructured;
    RepOfRemoval(anonymous, {"working_group"});
  }

  lemma RepOfSharedField(version: real, name: string, value: Json)
    ensures Rep(SharedField(version, name, value)) == SharedField(version, name, Rep(value))
  {
    if value.Obj? {
      RepOfRemoval(value.fields, {"revision", "history"});
      RepOfRemoval(value.fields, {"generation"});
      RepOfSharedTask(version, value.fields);
    }
  }

  lemma RepOfSharedShape(version: real, document: map<string, Json>)
    ensures RepFields(SharedShape(version, document)) == SharedShape(version, RepFields(document))
  {
    SharedShapeFieldwise(version, document);
    SharedShapeFieldwise(version, RepFields(document));
    forall k | k in document && Structured(document)
      ensures Rep(SharedField(version, k, document[k])) == SharedField(version, k, RepFields(document)[k])
    {
      RepOfSharedField(version, k, document[k]);
    }
  }

  // ----- an older version's shape factors through a newer one's -----

  /** The task fields a contract `version` does not share with later ones. */
  function DroppedTaskFields(version: real): set<string> {
    (if version < STRUCTURED_TASK_VERSION then {"object", "action", "participants", "confidence"} else {})
    + (if version < WORKING_GROUP_VERSION then {"working_group"} else {})
  }

  /** What `SharedTask` keeps of one retained field. */
  function SharedTaskField(version: real, name: string, value: Json): Json {
    if version >= PERSON_IDENTITY_HISTORY_VERSION then value
    else if name == "owner_ref" then WithoutPersonId(value)
    else if name == "participants" && value.Arr? then WithoutParticipantIds(value)
    else value
  }

  lemma SharedTaskFieldwise(version: real, task: map<string, Json>)
    ensures SharedTask(version, task)
         == map k | k in task.Keys - DroppedTaskFields(version) :: SharedTaskField(version, k, task[k])
  {
    var unstructured :=
      if version < STRUCTURED_TASK_VERSION then task - {"object", "action", "participants", "confidence"} else task;
    var anonymous := WithoutPersonIds(unstructured);
    assert anonymous.Keys == unstructured.Keys;
    assert forall k | k in unstructured && version < PERSON_IDENTITY_HISTORY_VERSION ::
      anonymous[k] == SharedTaskField(version, k, unstructured[k]);
  }

  lemma SharedTaskFieldFactors(older: real, newer: real, name: string, value: Json)
    requires older <= newer
    ensures SharedTaskField(older, name, SharedTaskField(newer, name, value)) == SharedTaskField(older, name, value)
  {
    if name == "participants" && value.Arr? {
      var once := WithoutParticipantIds(value);
      assert forall i | 0 <= i < |once.items| :: WithoutPersonId(once.items[i]) == once.items[i];
      assert WithoutParticipantIds(once).items == once.items;
    }
  }

  lemma SharedTaskFactors(older: real, newer: real, task: map<string, Json>)
    requires older <= newer
    ensures SharedTask(older, SharedTask(newer, task)) == SharedTask(older, task)
  {
    var once := SharedTask(newer, task);
    SharedTaskFieldwise(newer, task);
    SharedTaskFieldwise(older, task);
    SharedTaskFieldwise(older, once);
    forall k | k in task.Keys - DroppedTaskFields(older)
      ensures k in once && SharedTaskField(older, k, once[k]) == SharedTaskField(older, k, task[k])
    {
      SharedTaskFieldFactors(older, newer, k, task[k]);
    }
  }

  lemma SharedFieldFactors(older: real, newer: real, name: string, value: Json)
    requires older <= newer
    ensures SharedField(older, name, SharedField(newer, name, value)) == SharedField(older, name, value)
  {
    if value.Obj? {
      SharedTaskFactors(older, newer, value.fields);
      var names, generation := {"revision", "history"}, {"generation"};
      assert (value.fields - names) - names == value.fields - names;
      assert (value.fields - generation) - generation == value.fields - generation;
    }
  }

  lemma SharedShapeFactors(older: real, newer: real, document: map<string, Json>)
    requires older <= newer
    ensures SharedShape(older, SharedShape(newer, document)) == SharedShape(older, document)
  {
    var once := SharedShape(newer, document);
    SharedShapeFieldwise(newer, document);
    SharedShapeFieldwise(older, document);
    SharedShapeFieldwise(older, once);
    forall k | k in once && Structured(document)
      ensures SharedField(older, k, once[k]) == SharedField(older, k, document[k])
    {
      SharedFieldFactors(older, newer, k, document[k]);
    }
  }

  // ----- the relation is a strict partial order -----

  lemma ShapesEqualUnderOlderContract(older: real, newer: real, a: map<string, Json>, b: map<string, Json>)
    requires older <= newer
    requires PyEq(Obj(SharedShape(newer, a)), Obj(SharedShape(newer, b)))
    ensures PyEq(Obj(SharedShape(older, a)), Obj(SharedShape(older, b)))
  {
    PyEqIsRepEquality(Obj(SharedShape(newer, a)), Obj(SharedShape(newer, b)));
    calc {
      RepFields(SharedShape(older, a));
      { SharedShapeFactors(older, newer, a); RepOfSharedShape(older, SharedShape(newer, a)); }
      SharedShape(older, RepFields(SharedShape(newer, a)));
      SharedShape(older, RepFields(SharedShape(newer, b)));
      { SharedShapeFactors(older, newer, b); RepOfSharedShape(older, SharedShape(newer, b)); }
      RepFields(SharedShape(older, b));
    }
    PyEqIsRepEquality(Obj(SharedShape(older, a)), Obj(SharedShape(older, b)));
  }

  /** Which fields are dropped depends on the older document, so the two
      premises compare different shapes; the conclusion uses the first one's. */
  lemma UpgradeIsTransitive(a: Json, b: Json, c: Json)
    requires Upgrades(a, b) && Upgrades(b, c)
    ensures Upgrades(a, c)
  {
    var va, vb := a.fields["schema_version"].n, b.fields["schema_version"].n;
    ShapesEqualUnderOlderContract(va, vb, b.fields, c.fields);
    var x, y, z := Obj(SharedShape(va, a.fields)), Obj(SharedShape(va, b.fields)), Obj(SharedShape(va, c.fields));
    PyEqIsRepEquality(x, y);
    PyEqIsRepEquality(y, z);
    PyEqIsRepEquality(x, z);
  }

  lemma UpgradeIsAStrictPartialOrder()
    ensures forall a :: !Upgrades(a, a)
    ensures forall a, b :: Upgrades(a, b) ==> !Upgrades(b, a)
    ensures forall a, b, c :: Upgrades(a, b) && Upgrades(b, c) ==> Upgrades(a, c)
  {
    forall a, b, c | Upgrades(a, b) && Upgrades(b, c) ensures Upgrades(a, c) {
      UpgradeIsTransitive(a, b, c);
    }
  }
}
