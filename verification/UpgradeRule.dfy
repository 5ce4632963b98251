/** Which payloads upgrade which, field by field and by contract number. */
module UpgradeRule {
  import opened Json
  import opened ContractUpgrade

  /** Both have the same fields outside `left`, and these are equal. */
  ghost predicate SameFields(a: map<string, Json>, b: map<string, Json>, left: set<string>) {
    && a.Keys - left == b.Keys - left
    && forall k | k in a && k !in left :: k in b && PyEq(a[k], b[k])
  }

  /** Equal, or two objects that differ at most in the members `left`. */
  ghost predicate SameObject(x: Json, y: Json, left: set<string>) {
    if x.Obj? && y.Obj? then SameFields(x.fields, y.fields, left) else PyEq(x, y)
  }

  /** Equal, or two lists of the same length whose items are, apart from person ids. */
  ghost predicate SamePeople(x: Json, y: Json) {
    if x.Arr? && y.Arr? then
      |x.items| == |y.items| && forall i | 0 <= i < |x.items| :: SameObject(x.items[i], y.items[i], {"person_id"})
    else PyEq(x, y)
  }

  /** The task fields that contract `version` does not have yet. */
  ghost function NewerTaskFields(version: real): set<string> {
    (if version < 8.0 then {"object", "action", "participants", "confidence"} else {})
    + (if version < 12.0 then {"working_group"} else {})
  }

  /** Two tasks as contract `version` sees them: below 11 without person ids. */
  ghost predicate SameTask(version: real, a: map<string, Json>, b: map<string, Json>) {
    var left := NewerTaskFields(version);
    if version >= 11.0 then SameFields(a, b, left)
    else
      && SameFields(a, b, left + {"owner_ref", "participants"})
      && ("owner_ref" in a <==> "owner_ref" in b)
      && ("owner_ref" in a && "owner_ref" in b ==> SameObject(a["owner_ref"], b["owner_ref"], {"person_id"}))
      && (version >= 8.0 ==>
            && ("participants" in a <==> "participants" in b)
            && ("participants" in a && "participants" in b ==> SamePeople(a["participants"], b["participants"])))
  }

  /** Two documents as contract `version` sees them. */
  ghost predicate SameState(version: real, a: map<string, Json>, b: map<string, Json>) {
    if "source" in a && a["source"].Obj? && "task" in a && a["task"].Obj? then
      && "source" in b && b["source"].Obj? && "task" in b && b["task"].Obj?
      && SameFields(a, b, {"schema_version", "source", "task", "lifecycle"})
      && SameFields(a["source"].fields, b["source"].fields, {"revision", "history"})
      && SameTask(version, a["task"].fields, b["task"].fields)
      && ("lifecycle" in a <==> "lifecycle" in b)
      && ("lifecycle" in a && "lifecycle" in b ==> SameObject(a["lifecycle"], b["lifecycle"], {"generation"}))
    else SameFields(a, b, {"schema_version"})
  }

  /** The contract number of a document, if it is one of the cumulative contracts. */
  ghost predicate HasContract(j: Json, version: real) {
    && j.Obj? && "schema_version" in j.fields && j.fields["schema_version"] == Num(version)
    && (version == 7.0 || version == 8.0 || version == 9.0 || version == 11.0 || version == 12.0)
  }

  // ----- field by field -----

  lemma EqualMaps(x: map<string, Json>, y: map<string, Json>)
    ensures PyEq(Obj(x), Obj(y)) <==> x.Keys == y.Keys && forall k | k in x && k in y :: PyEq(x[k], y[k])
  {
  }

  lemma EqualWithout(x: map<string, Json>, y: map<string, Json>, left: set<string>)
    ensures PyEq(Obj(x - left), Obj(y - left)) <==> SameFields(x, y, left)
  {
    hide PyEq;
    EqualMaps(x - left, y - left);
    assert (x - left).Keys == x.Keys - left && (y - left).Keys == y.Keys - left;
    assert forall k | k in x && k !in left :: (x - left)[k] == x[k];
    assert forall k | k in y && k !in left :: (y - left)[k] == y[k];
  }

  lemma EqualObjects(x: Json, y: Json, left: set<string>)
    ensures PyEq(if x.Obj? then Obj(x.fields - left) else x, if y.Obj? then Obj(y.fields - left) else y)
            <==> SameObject(x, y, left)
  {
    if x.Obj? && y.Obj? {
      EqualWithout(x.fields, y.fields, left);
    }
  }

  lemma EqualLists(x: seq<Json>, y: seq<Json>)
    ensures PyEq(Arr(x), Arr(y)) <==> |x| == |y| && forall i | 0 <= i < |x| :: PyEq(x[i], y[i])
  {
  }

  lemma EqualPeople(x: Json, y: Json)
    ensures PyEq(if x.Arr? then WithoutParticipantIds(x) else x, if y.Arr? then WithoutParticipantIds(y) else y)
            <==> SamePeople(x, y)
  {
    if x.Arr? && y.Arr? {
      var u, v := WithoutParticipantIds(x).items, WithoutParticipantIds(y).items;
      EqualLists(u, v);
      forall i | 0 <= i < |x.items| && |x.items| == |y.items|
        ensures PyEq(u[i], v[i]) <==> SameObject(x.items[i], y.items[i], {"person_id"})
      {
        EqualObjects(x.items[i], y.items[i], {"person_id"});
      }
    }
  }

  ghost predicate SameTaskField(version: real, name: string, x: Json, y: Json) {
    if version >= 11.0 then PyEq(x, y)
    else if name == "owner_ref" then SameObject(x, y, {"person_id"})
    else if name == "participants" then SamePeople(x, y)
    else PyEq(x, y)
  }

  lemma EqualTaskFields(version: real, name: string, x: Json, y: Json)
    ensures PyEq(SharedTaskField(version, name, x), SharedTaskField(version, name, y))
            <==> SameTaskField(version, name, x, y)
  {
    hide PyEq, WithoutParticipantIds;
    if version < 11.0 && name == "owner_ref" {
      EqualObjects(x, y, {"person_id"});
    } else if version < 11.0 && name == "participants" {
      EqualPeople(x, y);
    }
  }

  lemma DroppedAreNewer(version: real)
    ensures DroppedTaskFields(version) == NewerTaskFields(version)
  {
  }

  lemma EqualTasks(version: real, a: map<string, Json>, b: map<string, Json>)
    ensures PyEq(Obj(SharedTask(version, a)), Obj(SharedTask(version, b))) <==>
      && a.Keys - NewerTaskFields(version) == b.Keys - NewerTaskFields(version)
      && forall k | k in a && k in b && k !in NewerTaskFields(version) :: SameTaskField(version, k, a[k], b[k])
  {
    hide PyEq, SharedTaskField, SameTaskField, NewerTaskFields, DroppedTaskFields, SharedTask;
    DroppedAreNewer(version);
    SharedTaskFieldwise(version, a);
    SharedTaskFieldwise(version, b);
    EqualMaps(SharedTask(version, a), SharedTask(version, b));
    forall k | k in a && k in b && k !in NewerTaskFields(version)
      ensures PyEq(SharedTask(version, a)[k], SharedTask(version, b)[k]) <==> SameTaskField(version, k, a[k], b[k])
    {
      EqualTaskFields(version, k, a[k], b[k]);
    }
    assert SharedTask(version, a).Keys == a.Keys - NewerTaskFields(version);
    assert SharedTask(version, b).Keys == b.Keys - NewerTaskFields(version);
  }

  /** Setting one more field aside. */
  lemma KeysSplit(a: map<string, Json>, b: map<string, Json>, left: set<string>, name: string)
    ensures a.Keys - left == b.Keys - left <==>
      a.Keys - (left + {name}) == b.Keys - (left + {name}) && (name !in left ==> (name in a <==> name in b))
  {
    var x, y := a.Keys - left, b.Keys - left;
    var u, v := a.Keys - (left + {name}), b.Keys - (left + {name});
    if u == v && (name !in left ==> (name in a <==> name in b)) {
      forall k ensures k in x <==> k in y {
        assert k != name ==> (k in x <==> k in u) && (k in y <==> k in v);
      }
    }
    assert name !in left ==> (name in x <==> name in a) && (name in y <==> name in b);
    if x == y {
      assert forall k :: k in u <==> k in x && k != name;
      assert forall k :: k in v <==> k in y && k != name;
    }
  }

  /** Fields compared one by one, with `special` set aside, is `SameFields`. */
  lemma FieldByField(a: map<string, Json>, b: map<string, Json>, left: set<string>, special: set<string>)
    ensures SameFields(a, b, left + special) <==>
      && a.Keys - (left + special) == b.Keys - (left + special)
      && forall k | k in a && k in b && k !in left && k !in special :: PyEq(a[k], b[k])
  {
    hide PyEq;
    if a.Keys - (left + special) == b.Keys - (left + special) {
      forall k | k in a && k !in left + special ensures k in b {
        assert k in a.Keys - (left + special);
      }
    }
  }

  lemma EqualTasksMean(version: real, a: map<string, Json>, b: map<string, Json>)
    ensures PyEq(Obj(SharedTask(version, a)), Obj(SharedTask(version, b))) <==> SameTask(version, a, b)
  {
    hide PyEq, SharedTask, SameObject, SamePeople, SameFields, NewerTaskFields;
    EqualTasks(version, a, b);
    var left := NewerTaskFields(version);
    OldNamesStay(version);
    if version >= 11.0 {
      FieldByField(a, b, left, {});
      assert left + {} == left;
    } else {
      KeysSplit(a, b, left, "owner_ref");
      KeysSplit(a, b, left + {"owner_ref"}, "participants");
      assert left + {"owner_ref"} + {"participants"} == left + {"owner_ref", "participants"};
      FieldByField(a, b, left, {"owner_ref", "participants"});
      if SameTask(version, a, b) {
        forall k | k in a && k in b && k !in left ensures SameTaskField(version, k, a[k], b[k]) {
        }
      }
      if forall k | k in a && k in b && k !in left :: SameTaskField(version, k, a[k], b[k]) {
        forall k | k in a && k in b && k !in left && k !in {"owner_ref", "participants"} ensures PyEq(a[k], b[k]) {
          assert SameTaskField(version, k, a[k], b[k]);
        }
      }
    }
  }

  lemma OldNamesStay(version: real)
    ensures "owner_ref" !in NewerTaskFields(version)
    ensures "participants" in NewerTaskFields(version) <==> version < 8.0
  {
    assert "owner_ref"[1] == 'w' && |"action"| == 6 && |"confidence"| == 10 && |"working_group"| == 13;
    assert |"participants"| == 12 && |"object"| == 6 && |"owner_ref"| == 9;
  }

  ghost predicate SameTopField(version: real, name: string, x: Json, y: Json) {
    if name == "source" then SameObject(x, y, {"revision", "history"})
    else if name == "lifecycle" then SameObject(x, y, {"generation"})
    else if name == "task" && x.Obj? && y.Obj? then SameTask(version, x.fields, y.fields)
    else PyEq(x, y)
  }

  lemma EqualTopFields(version: real, name: string, x: Json, y: Json)
    ensures PyEq(SharedField(version, name, x), SharedField(version, name, y)) <==> SameTopField(version, name, x, y)
  {
    hide SharedTask, SameTask;
    if name == "source" {
      EqualObjects(x, y, {"revision", "history"});
    } else if name == "lifecycle" {
      EqualObjects(x, y, {"generation"});
    } else if name == "task" && x.Obj? && y.Obj? {
      EqualTasksMean(version, x.fields, y.fields);
    }
  }

  // ----- whole documents -----

  lemma EqualStructured(version: real, a: map<string, Json>, b: map<string, Json>)
    requires Structured(a) && Structured(b)
    ensures PyEq(Obj(SharedShape(version, a)), Obj(SharedShape(version, b))) <==>
      && a.Keys - {"schema_version"} == b.Keys - {"schema_version"}
      && forall k | k in a && k in b && k != "schema_version" :: SameTopField(version, k, a[k], b[k])
  {
    hide PyEq, SharedShape, SharedField, SameTopField;
    SharedShapeFieldwise(version, a);
    SharedShapeFieldwise(version, b);
    EqualMaps(SharedShape(version, a), SharedShape(version, b));
    forall k | k in a && k in b && k != "schema_version"
      ensures PyEq(SharedShape(version, a)[k], SharedShape(version, b)[k]) <==> SameTopField(version, k, a[k], b[k])
    {
      EqualTopFields(version, k, a[k], b[k]);
    }
    assert SharedShape(version, a).Keys == a.Keys - {"schema_version"};
    assert SharedShape(version, b).Keys == b.Keys - {"schema_version"};
  }

  lemma NamesDiffer()
    ensures "source" != "task" && "source" != "lifecycle" && "task" != "lifecycle"
    ensures "schema_version" != "source" && "schema_version" != "task" && "schema_version" != "lifecycle"
  {
    assert |"source"| == 6 && |"task"| == 4 && |"lifecycle"| == 9 && |"schema_version"| == 14;
  }

  lemma EqualStates(version: real, a: map<string, Json>, b: map<string, Json>)
    requires Structured(a) && Structured(b)
    ensures PyEq(Obj(SharedShape(version, a)), Obj(SharedShape(version, b))) <==> SameState(version, a, b)
  {
    hide PyEq, SharedShape, SameObject, SameTask, SameFields;
    NamesDiffer();
    EqualStructured(version, a, b);
    var left, special := {"schema_version"}, {"source", "task", "lifecycle"};
    KeysSplit(a, b, left, "source");
    KeysSplit(a, b, left + {"source"}, "task");
    KeysSplit(a, b, left + {"source"} + {"task"}, "lifecycle");
    assert left + {"source"} + {"task"} + {"lifecycle"} == left + special == {"schema_version"} + special;
    FieldByField(a, b, left, special);
    assert left + special == {"schema_version", "source", "task", "lifecycle"};
    ObjectsAreFields(a["source"], b["source"], {"revision", "history"});
    if SameState(version, a, b) {
      forall k | k in a && k in b && k != "schema_version" ensures SameTopField(version, k, a[k], b[k]) {
      }
    }
    if forall k | k in a && k in b && k != "schema_version" :: SameTopField(version, k, a[k], b[k]) {
      assert SameTopField(version, "source", a["source"], b["source"]) && SameTopField(version, "task", a["task"], b["task"]);
      forall k | k in a && k in b && k !in left && k !in special ensures PyEq(a[k], b[k]) {
        assert SameTopField(version, k, a[k], b[k]);
      }
    }
  }

  lemma ObjectsAreFields(x: Json, y: Json, left: set<string>)
    requires x.Obj? && y.Obj?
    ensures SameObject(x, y, left) <==> SameFields(x.fields, y.fields, left)
  {
  }

  /** The shape of a document keeps a source and a task objects. */
  lemma ShapeStaysStructured(version: real, a: map<string, Json>)
    ensures Structured(SharedShape(version, a)) == Structured(a)
  {
    hide SharedTask;
    NamesDiffer();
    SharedShapeFieldwise(version, a);
  }

  lemma EqualAreStructuredAlike(x: map<string, Json>, y: map<string, Json>)
    requires SameFields(x, y, {"schema_version"})
    ensures Structured(x) == Structured(y)
  {
    NamesDiffer();
    assert forall k | k in {"source", "task"} :: k in x.Keys - {"schema_version"} <==> k in x;
    assert forall k | k in {"source", "task"} :: k in y.Keys - {"schema_version"} <==> k in y;
  }

  /** A document with a source and a task is never the same as one without. */
  lemma UnlikeShapes(version: real, a: map<string, Json>, b: map<string, Json>)
    requires Structured(a) != Structured(b)
    ensures !PyEq(Obj(SharedShape(version, a)), Obj(SharedShape(version, b))) && !SameState(version, a, b)
  {
    hide SharedTask, SameTask, SharedShape;
    var x, y := SharedShape(version, a), SharedShape(version, b);
    ShapeStaysStructured(version, a);
    ShapeStaysStructured(version, b);
    EqualMaps(x, y);
    if SameFields(x, y, {"schema_version"}) {
      EqualAreStructuredAlike(x, y);
    }
    if SameFields(a, b, {"schema_version"}) {
      EqualAreStructuredAlike(a, b);
    }
  }

  /** Comparing shared shapes is comparing states as the older contract sees them. */
  lemma ShapesMean(version: real, a: map<string, Json>, b: map<string, Json>)
    ensures PyEq(Obj(SharedShape(version, a)), Obj(SharedShape(version, b))) <==> SameState(version, a, b)
  {
    hide PyEq, SameTask, SharedTask;
    if Structured(a) && Structured(b) {
      EqualStates(version, a, b);
    } else if Structured(a) || Structured(b) {
      UnlikeShapes(version, a, b);
    } else {
      EqualWithout(a, b, {"schema_version"});
    }
  }

  /** One document upgrades another exactly when both are of a cumulative contract,
      the contract rises, and they are the same state as the older contract sees it. */
  lemma UpgradesIff(current: Json, incoming: Json)
    ensures Upgrades(current, incoming) <==>
      exists older, newer: real | older < newer ::
        && HasContract(current, older) && HasContract(incoming, newer)
        && SameState(older, current.fields, incoming.fields)
  {
    hide SharedShape, SameState, PyEq;
    if HasVersion(current) && HasVersion(incoming) {
      var v, w := current.fields["schema_version"], incoming.fields["schema_version"];
      if v.Num? && w.Num? {
        ShapesMean(v.n, current.fields, incoming.fields);
        if Upgrades(current, incoming) {
          assert HasContract(current, v.n) && HasContract(incoming, w.n);
        }
      }
    }
  }

  /** The test raises exactly when it meets a version that cannot be hashed. */
  lemma RaisesIff(current: Json, incoming: Json)
    ensures IsCumulativeContractUpgrade(current, incoming) == Raises <==>
      && current.Obj? && incoming.Obj? && "schema_version" in current.fields && "schema_version" in incoming.fields
      && var v, w := current.fields["schema_version"], incoming.fields["schema_version"];
      && (v.Arr? || v.Obj? || ((exists older: real :: HasContract(current, older)) && (w.Arr? || w.Obj?)))
  {
    hide SharedShape, PyEq;
    if HasVersion(current) && current.fields["schema_version"].Num? {
      assert Cumulative(current.fields["schema_version"]) <==> HasContract(current, current.fields["schema_version"].n);
    }
  }
}
