/**
 `ApplyCustomerAttributesPatch` on mutable maps: clone, replace, merge in place, then cut every
 unset path in place. The caller's attributes stay as they were.
 */
module AttributeEngine {
  import opened AttributeHeap
  import opened AttributeMerge
  import opened AttributePatch
  import opened JsonValues
  import opened Texts
  import opened Wrappers

  /** The maps met when walking down `path` from `trail[0]`. */
  ghost predicate Walked(trail: seq<AttributeMap>, path: Path)
    reads trail, set m, o | m in trail && o in m.Repr :: o
  {
    && 1 <= |trail| <= |path|
    && (forall j | 0 <= j < |trail| :: trail[j].Valid())
    && (forall j | 0 <= j < |trail| - 1 ::
          path[j] in trail[j].entries && trail[j].entries[path[j]] == Nested(trail[j + 1]))
  }

  /** If the walk cannot go on, unsetting the path changes nothing. */
  lemma {:induction false} BrokenWalk(trail: seq<AttributeMap>, path: Path, j: nat)
    requires Walked(trail, path) && j < |trail| < |path|
    requires var last := |trail| - 1; Unset(trail[last].Value(), path[last..]) == trail[last].Value()
    ensures Unset(trail[j].Value(), path[j..]) == trail[j].Value()
    decreases |trail| - j
  {
    if j < |trail| - 1 {
      BrokenWalk(trail, path, j + 1);
      assert path[j..][1..] == path[j + 1..];
      assert trail[j].ValueAt(path[j]) == trail[j + 1].Value();
      assert Unset(trail[j].Value(), path[j..]).fields == trail[j].Value().fields;
    }
  }

  /**
   Deleting the last segment from the map at the end of the walk unsets the path in every map on
   it. There is one deletion; the recursion carries what it means back up the walk.
   */
  method DeleteLast(node: AttributeMap, path: Path, ghost trail: seq<AttributeMap>)
    requires Walked(trail, path) && |trail| == |path| && trail[|trail| - 1] == node
    requires node in trail[0].Repr
    modifies node`entries
    ensures trail[0].Valid() && trail[0].Value() == Unset(old(trail[0].Value()), path)
    decreases |path|
  {
    if |path| == 1 {
      assert path == [path[0]];
      DeleteKey(node, path[0]);
      return;
    }
    ghost var top, below := trail[0], trail[1..];
    assert node in below[0].Repr by { OwnsLast(below, path[1..]); }
    DeleteLast(node, path[1..], below);
    forall k | k in top.entries && k != path[0] && top.entries[k].Nested?
      ensures var c := top.entries[k].node; c.Valid() && c.Value() == old(c.Value())
    {
      var c := top.entries[k].node;
      assert node !in old(c.Repr) && old(c.Valid());
    }
    assert top.Value().fields == Unset(old(top.Value()), path).fields;
  }

  lemma {:induction false} OwnsLast(trail: seq<AttributeMap>, path: Path)
    requires Walked(trail, path)
    ensures trail[|trail| - 1] in trail[0].Repr
    decreases |trail|
  {
    if |trail| > 1 { OwnsLast(trail[1..], path[1..]); }
  }

  method DeleteKey(m: AttributeMap, k: string)
    requires m.Valid()
    modifies m`entries
    ensures m.Valid() && m.Value() == Unset(old(m.Value()), [k])
    ensures m.entries == old(m.entries) - {k}
  {
    m.entries := m.entries - {k};
    forall j | j in m.entries && m.entries[j].Nested?
      ensures var c := m.entries[j].node; c.Valid() && c.Value() == old(c.Value())
    {
      assert m !in old(m.entries[j].node.Repr);
    }
    assert m.Value().fields == Unset(old(m.Value()), [k]).fields;
  }

  /** `unsetCustomerAttributePath`: walk down, give up at the first non-object, else delete. */
  method UnsetPath(root: AttributeMap, path: Path)
    requires root.Valid()
    modifies root.Repr
    ensures root.Valid() && root.Repr == old(root.Repr)
    ensures root.Value() == Unset(old(root.Value()), path)
  {
    var current, i := root, 0;
    ghost var trail := [root];
    while i < |path| - 1
      invariant 0 <= i < |path| && |trail| == i + 1 && trail[0] == root && trail[i] == current
      invariant Walked(trail, path) && current.Repr <= root.Repr
    {
      if path[i] !in current.entries || !current.entries[path[i]].Nested? {
        BrokenWalk(trail, path, 0);
        return;
      }
      current := current.entries[path[i]].node;
      trail := trail + [current];
      i := i + 1;
    }
    DeleteLast(current, path, trail);
  }

  /** Add a member that shares nothing with the map. */
  method AddMember(m: AttributeMap, k: string, value: Attribute)
    requires m.Valid() && k !in m.entries
    requires value.Plain? ==> !value.json.Object?
    requires value.Nested? ==> value.node.Valid() && value.node.Repr !! m.Repr
    modifies m
    ensures m.Valid() && m.Repr == old(m.Repr) + if value.Nested? then value.node.Repr else {}
    ensures m.Value() == Object(old(m.Value()).fields[k := old(ValueOf(value))])
  {
    if value.Nested? { Enlarge(m, value.node.Repr); }
    StoreEntry(m, k, value);
  }

  /** `json.Unmarshal` into a map: a new tree of maps that stands for the document. */
  method Materialise(o: JsonObject) returns (m: AttributeMap)
    ensures m.Valid() && fresh(m.Repr) && m.Value() == o
    decreases o
  {
    m := new AttributeMap();
    var pending := o.fields.Keys;
    while pending != {}
      invariant pending <= o.fields.Keys && m.Valid() && fresh(m.Repr)
      invariant m.Value() == Object(o.fields - pending)
      decreases pending
    {
      var k :| k in pending;
      var value := Plain(o.fields[k]);
      if o.fields[k].Object? {
        var child := Materialise(o.fields[k]);
        value := Nested(child);
      }
      AddMember(m, k, value);
      pending := pending - {k};
    }
  }

  /** `json.Marshal` of a map, as the document it writes. */
  method ReadOut(m: AttributeMap) returns (o: JsonObject)
    requires m.Valid()
    ensures o == m.Value()
    decreases m.Repr
  {
    o := EMPTY;
    var pending := m.entries.Keys;
    while pending != {}
      invariant pending <= m.entries.Keys
      invariant o == Object(m.Value().fields - pending)
      decreases pending
    {
      var k :| k in pending;
      var value: Json;
      match m.entries[k] {
        case Plain(j) => value := j;
        case Nested(c) => value := ReadOut(c);
      }
      assert value == m.ValueAt(k);
      o := Object(o.fields[k := value]);
      pending := pending - {k};
      assert o.fields == m.Value().fields - pending;
    }
    assert m.Value().fields - {} == m.Value().fields;
  }

  /** The document a possibly nil attribute map stands for. */
  ghost function CurrentValue(current: AttributeMap?): JsonObject
    requires current != null ==> current.Valid()
    reads current, if current == null then {} else current.Repr
  {
    if current == null then EMPTY else current.Value()
  }

  /** `cloneCustomerAttributes`: a copy that shares nothing with the original. */
  method CloneAttributes(current: AttributeMap?) returns (copy: AttributeMap)
    requires current != null ==> current.Valid()
    ensures copy.Valid() && fresh(copy.Repr) && copy.Value() == CurrentValue(current)
  {
    var document := EMPTY;
    if current != null { document := ReadOut(current); }
    copy := Materialise(document);
  }

  /** The check that every segment of a dotted path has something in it. */
  method CheckSegments(path: string) returns (ok: bool)
    ensures ok == WellFormedPath(path)
  {
    var parts, i := Split(path, '.'), 0;
    while i < |parts|
      invariant 0 <= i <= |parts| && forall j | 0 <= j < i :: Trim(parts[j]) != []
    {
      if Trim(parts[i]) == [] {
        assert parts[i] in parts;
        return false;
      }
      i := i + 1;
    }
    ok := true;
  }

  /** The unset loop: earlier paths are already cut when a later one is found blank. */
  method ApplyUnset(working: AttributeMap, unset: seq<string>) returns (ok: bool)
    requires working.Valid()
    modifies working.Repr
    ensures ok <==> forall path | path in unset :: WellFormedPath(path)
    ensures ok ==> working.Valid() && working.Repr == old(working.Repr)
    ensures ok ==> working.Value() == UnsetAll(old(working.Value()), Paths(unset))
  {
    ghost var all, o := Paths(unset), working.Value();
    var i := 0;
    assert all[0..] == all;
    while i < |unset|
      invariant 0 <= i <= |unset|
      invariant working.Valid() && working.Repr == old(working.Repr)
      invariant forall j | 0 <= j < i :: WellFormedPath(unset[j])
      invariant UnsetAll(working.Value(), all[i..]) == UnsetAll(o, all)
    {
      var fine := CheckSegments(unset[i]);
      if !fine { return false; }
      UnsetPath(working, Split(unset[i], '.'));
      assert all[i..][1..] == all[i + 1..];
      i := i + 1;
    }
    ok := true;
  }

  /** The merge step: nothing to do, a document that is not an object, or a merge in place. */
  method ApplyMerge(working: AttributeMap, merge: Message) returns (ok: bool)
    requires working.Valid()
    modifies working.Repr
    ensures ok <==> merge == Absent || DecodeObject(merge).Ok?
    ensures ok ==> working.Valid() && fresh(working.Repr - old(working.Repr))
    ensures ok && merge == Absent ==> working.Value() == old(working.Value())
    ensures ok && merge != Absent ==> working.Value() == Merge(old(working.Value()), DecodeObject(merge).value)
  {
    if merge == Absent { return true; }
    var decoded := DecodeObject(merge);
    if decoded.Err? { return false; }
    var incoming := Materialise(decoded.value);
    DeepMerge(working, incoming);
    ok := true;
  }

  /** `ApplyCustomerAttributesPatch`; the result is new and nothing that existed before is written. */
  method ApplyPatch(current: AttributeMap?, patch: Patch) returns (result: Result<AttributeMap>)
    requires current != null ==> current.Valid()
    ensures result.Ok? <==> Accepted(patch)
    ensures result.Ok? ==> result.value.Valid() && fresh(result.value.Repr)
    ensures result.Ok? ==> Apply(CurrentValue(current), patch) == Result.Ok(result.value.Value())
  {
    var working := CloneAttributes(current);
    if patch.replace != Absent {
      var decoded := DecodeObject(patch.replace);
      if decoded.Err? { return Err; }
      working := Materialise(decoded.value);
    }
    var ok := ApplyMerge(working, patch.merge);
    if !ok { return Err; }
    assert Accepted(patch.(unset := [])) && working.Value() == Merged(CurrentValue(current), patch.(unset := []));
    ok := ApplyUnset(working, patch.unset);
    result := if ok then Ok(working) else Err;
  }

  /** The attribute part of `CustomerProfilePatch.Validate`: a trial run on no attributes. */
  method ValidateAttributes(patch: Patch) returns (ok: bool)
    ensures ok == Accepted(patch)
  {
    var trial := ApplyPatch(null, patch);
    ok := trial.Ok?;
  }
}
