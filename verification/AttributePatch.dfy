/**
 What a customer attribute patch means, on values: replace, merge, then remove paths.
 `AttributeEngine.ApplyPatch` is the in-place algorithm, proved equal to `Apply`.
 */
module AttributePatch {
  import opened AttributeMerge
  import opened JsonValues
  import opened RawJson
  import opened Texts
  import opened Wrappers

  // ---------- unset ----------

  type Path = p: seq<string> | |p| > 0 witness [[]]

  function Unset(o: JsonObject, path: Path): JsonObject
    decreases |path|
  {
    var k := path[0];
    if |path| == 1 then Object(o.fields - {k})
    else if Member(o, k).Object? then Object(o.fields[k := Unset(o.fields[k], path[1..])])
    else o
  }

  function UnsetAll(o: JsonObject, paths: seq<Path>): JsonObject
    decreases |paths|
  {
    if paths == [] then o else UnsetAll(Unset(o, paths[0]), paths[1..])
  }

  /** The dead paths below member `k`. */
  function Below(dead: set<Path>, k: string): set<Path> {
    set p: Path | p in dead && |p| > 1 && p[0] == k :: p[1..]
  }

  /** The document without the members named by a set of paths, in one simultaneous cut. */
  function Prune(o: JsonObject, dead: set<Path>): JsonObject
    decreases o
  {
    Object(map k | k in o.fields && [k] !in dead ::
             if o.fields[k].Object? then Prune(o.fields[k], Below(dead, k)) else o.fields[k])
  }

  lemma {:induction false} PruneNothing(o: JsonObject)
    ensures Prune(o, {}) == o
    decreases o
  {
    forall k | k in o.fields && o.fields[k].Object? ensures Prune(o, {}).fields[k] == o.fields[k] {
      assert Below({}, k) == {};
      PruneNothing(o.fields[k]);
    }
    assert Prune(o, {}).fields == o.fields;
  }

  lemma {:induction false} UnsetExtendsPrune(o: JsonObject, dead: set<Path>, path: Path)
    ensures Unset(Prune(o, dead), path) == Prune(o, dead + {path})
    decreases o
  {
    var k := path[0];
    forall j | j != k ensures Below(dead + {path}, j) == Below(dead, j) {}
    if |path| == 1 {
      assert path == [k];
      assert Below(dead + {path}, k) == Below(dead, k);
    } else {
      BelowAdd(dead, path);
      if k in o.fields && o.fields[k].Object? {
        UnsetExtendsPrune(o.fields[k], Below(dead, k), path[1..]);
      }
    }
    assert Unset(Prune(o, dead), path).fields == Prune(o, dead + {path}).fields;
  }

  lemma BelowAdd(dead: set<Path>, path: Path)
    requires |path| > 1
    ensures Below(dead + {path}, path[0]) == Below(dead, path[0]) + {path[1..]}
  {
    var both := dead + {path};
    assert path in both;
    forall p: Path | p in dead && |p| > 1 && p[0] == path[0] ensures p[1..] in Below(both, path[0]) {
      assert p in both;
    }
  }

  function PathSet(paths: seq<Path>): set<Path> { set p | p in paths }

  /** Removing paths one after another is one simultaneous cut of the set of paths. */
  lemma {:induction false} UnsetAllPrunes(o: JsonObject, dead: set<Path>, paths: seq<Path>)
    ensures UnsetAll(Prune(o, dead), paths) == Prune(o, dead + PathSet(paths))
    decreases |paths|
  {
    if paths == [] {
      assert dead + PathSet(paths) == dead;
    } else {
      UnsetExtendsPrune(o, dead, paths[0]);
      UnsetAllPrunes(o, dead + {paths[0]}, paths[1..]);
      assert paths == [paths[0]] + paths[1..];
      assert dead + PathSet(paths) == dead + {paths[0]} + PathSet(paths[1..]);
    }
  }

  /** Order and repetition of the unset paths are immaterial. */
  lemma UnsetOrderIrrelevant(o: JsonObject, paths: seq<Path>, others: seq<Path>)
    requires PathSet(paths) == PathSet(others)
    ensures UnsetAll(o, paths) == UnsetAll(o, others) == Prune(o, PathSet(paths))
  {
    PruneNothing(o);
    UnsetAllPrunes(o, {}, paths);
    UnsetAllPrunes(o, {}, others);
    assert {} + PathSet(paths) == PathSet(paths);
  }

  // ---------- which paths survive ----------

  function Lookup(j: Json, path: seq<string>): Result<Json>
    decreases |path|
  {
    if path == [] then Ok(j)
    else if j.Object? && path[0] in j.fields then Lookup(j.fields[path[0]], path[1..])
    else Err
  }

  /** Some unset path is a prefix of `path`. */
  predicate Covered(dead: set<Path>, path: seq<string>) {
    exists i | 1 <= i <= |path| :: path[..i] in dead
  }

  lemma {:induction false} CoveredBelow(dead: set<Path>, path: seq<string>)
    requires |path| > 0
    ensures Covered(dead, path) <==> [path[0]] in dead || Covered(Below(dead, path[0]), path[1..])
  {
    var k, rest := path[0], path[1..];
    assert path[..1] == [k];
    forall i | 1 <= i <= |rest| ensures rest[..i] in Below(dead, k) <==> path[..i + 1] in dead {
      assert path[..i + 1] == [k] + rest[..i];
      assert path[..i + 1][1..] == rest[..i];
      if rest[..i] in Below(dead, k) {
        var p: Path :| p in dead && |p| > 1 && p[0] == k && p[1..] == rest[..i];
        assert p == [p[0]] + p[1..];
      }
    }
    if Covered(dead, path) && [k] !in dead {
      var i :| 1 <= i <= |path| && path[..i] in dead;
      assert rest[..i - 1] in Below(dead, k);
    }
    if Covered(Below(dead, k), rest) {
      var i :| 1 <= i <= |rest| && rest[..i] in Below(dead, k);
      assert path[..i + 1] in dead;
    }
  }

  /** A path survives exactly when no unset path is a prefix of it, and then keeps its leaf value. */
  lemma {:induction false} PathSurvivesIffUncovered(o: JsonObject, dead: set<Path>, path: Path)
    ensures Lookup(Prune(o, dead), path).Ok? <==> Lookup(o, path).Ok? && !Covered(dead, path)
    ensures Lookup(Prune(o, dead), path).Ok? && !Lookup(o, path).value.Object? ==>
              Lookup(Prune(o, dead), path) == Lookup(o, path)
    decreases |path|
  {
    var k := path[0];
    CoveredBelow(dead, path);
    if k in o.fields && [k] !in dead {
      var child, cut := o.fields[k], Prune(o, dead).fields[k];
      assert Lookup(o, path) == Lookup(child, path[1..]);
      assert Lookup(Prune(o, dead), path) == Lookup(cut, path[1..]);
      if |path| == 1 {
        assert !Covered(Below(dead, k), path[1..]);
      } else if child.Object? {
        PathSurvivesIffUncovered(child, Below(dead, k), path[1..]);
      }
    }
  }

  // ---------- which values a merge leaves ----------

  /** Following the path, the document ends before the path does: it says nothing about what is there. */
  predicate Silent(o: JsonObject, path: seq<string>)
    decreases |path|
  {
    path != [] && (path[0] !in o.fields || (o.fields[path[0]].Object? && Silent(o.fields[path[0]], path[1..])))
  }

  /**
   A value that is no object, null included, is at a path after a merge exactly when the incoming document has it
   there, or the current one has and the incoming one says nothing about the path.
   */
  lemma {:induction false} MergedValues(current: JsonObject, incoming: JsonObject, path: Path, v: Json)
    requires !v.Object?
    ensures Lookup(Merge(current, incoming), path) == Ok(v)
            <==> Lookup(incoming, path) == Ok(v) || (Lookup(current, path) == Ok(v) && Silent(incoming, path))
    decreases |path|
  {
    var k, m := path[0], Merge(current, incoming);
    if k in incoming.fields && incoming.fields[k].Object? && |path| > 1 {
      assert path[1..] != [];
      if Member(current, k).Object? {
        MergedValues(current.fields[k], incoming.fields[k], path[1..], v);
      } else {
        assert m.fields[k] == incoming.fields[k];
      }
    } else if |path| == 1 {
      assert path[1..] == [];
    }
  }

  // ---------- the whole patch ----------

  /** A `json.RawMessage`: no bytes, text that is not JSON, or a document. */
  datatype Message = Absent | Malformed | Document(raw: Raw)

  datatype Patch = Patch(replace: Message, merge: Message, unset: seq<string>)

  function DecodeObject(m: Message): Result<JsonObject> {
    if m.Document? && Decode(m.raw).Object? then Ok(Decode(m.raw)) else Err
  }

  /** A dotted path is accepted when none of its segments is blank. */
  predicate WellFormedPath(path: string) {
    forall part | part in Split(path, '.') :: Trim(part) != []
  }

  predicate Accepted(patch: Patch) {
    && (patch.replace == Absent || DecodeObject(patch.replace).Ok?)
    && (patch.merge == Absent || DecodeObject(patch.merge).Ok?)
    && forall path | path in patch.unset :: WellFormedPath(path)
  }

  function Paths(unset: seq<string>): seq<Path> {
    seq(|unset|, i requires 0 <= i < |unset| => Split(unset[i], '.'))
  }

  /** Current attributes, after the `set` document if there is one, after the `merge` document. */
  function Merged(current: JsonObject, patch: Patch): JsonObject
    requires Accepted(patch)
  {
    var base := if patch.replace == Absent then current else DecodeObject(patch.replace).value;
    if patch.merge == Absent then base else Merge(base, DecodeObject(patch.merge).value)
  }

  function Apply(current: JsonObject, patch: Patch): Result<JsonObject> {
    if Accepted(patch) then Ok(UnsetAll(Merged(current, patch), Paths(patch.unset))) else Err
  }

  /** A member path of the merged document is kept exactly when no unset path is a prefix of it. */
  lemma PatchKeepsExactlyUncovered(current: JsonObject, patch: Patch, path: Path)
    requires Accepted(patch)
    ensures
      var before, after := Lookup(Merged(current, patch), path), Lookup(Apply(current, patch).value, path);
      && (after.Ok? <==> before.Ok? && !Covered(PathSet(Paths(patch.unset)), path))
      && (after.Ok? && !before.value.Object? ==> after == before)
  {
    var paths := Paths(patch.unset);
    UnsetOrderIrrelevant(Merged(current, patch), paths, paths);
    PathSurvivesIffUncovered(Merged(current, patch), PathSet(paths), path);
  }

  /** The unset list of a patch may be permuted and repeated at will. */
  lemma PatchUnsetOrderIrrelevant(current: JsonObject, patch: Patch, unset: seq<string>)
    requires forall p :: p in patch.unset <==> p in unset
    ensures Apply(current, patch) == Apply(current, patch.(unset := unset))
  {
    var a, b := Paths(patch.unset), Paths(unset);
    if Accepted(patch) {
      forall p: Path ensures p in PathSet(a) <==> p in PathSet(b) {
        SameSplits(patch.unset, unset, p);
        SameSplits(unset, patch.unset, p);
      }
      UnsetOrderIrrelevant(Merged(current, patch), a, b);
    }
  }

  lemma SameSplits(from: seq<string>, to: seq<string>, p: Path)
    requires forall s :: s in from ==> s in to
    ensures p in Paths(from) ==> p in Paths(to)
  {
    if p in Paths(from) {
      var i :| 0 <= i < |from| && Paths(from)[i] == p;
      assert from[i] in to;
      var j :| 0 <= j < |to| && to[j] == from[i];
      assert Paths(to)[j] == p;
    }
  }

  // ---------- what each part of a patch does ----------

  /** A `set` document replaces: what the attributes were before is immaterial, to success too. */
  lemma SetForgetsCurrent(current: JsonObject, other: JsonObject, patch: Patch)
    requires patch.replace != Absent
    ensures Apply(current, patch) == Apply(other, patch)
  {}

  /** By itself it is the result, and a patch with no part changes nothing. */
  lemma SetAloneIsResult(current: JsonObject, raw: Raw)
    ensures Apply(current, Patch(Document(raw), Absent, [])) == if Decode(raw).Object? then Ok(Decode(raw)) else Err
    ensures Apply(current, Patch(Absent, Absent, [])) == Ok(current)
  {}

  /** By itself, `merge` agrees with RFC 7396 exactly when it holds no null. */
  lemma MergeAloneIsMergePatch(current: JsonObject, raw: Raw)
    requires Decode(raw).Object?
    ensures Apply(current, Patch(Absent, Document(raw), [])).Ok?
    ensures Apply(current, Patch(Absent, Document(raw), [])).value == MergePatch(current, Decode(raw)) <==> NullFree(Decode(raw))
  {
    MergeIsMergePatchIffNullFree(current, Decode(raw));
  }

  function Then(r: Result<JsonObject>, patch: Patch): Result<JsonObject> { if r.Ok? then Apply(r.value, patch) else Err }

  /** A patch is its three parts one after the other: set, merge, unset. */
  lemma PartsInTurn(current: JsonObject, patch: Patch)
    ensures Apply(current, patch)
            == Then(Then(Apply(current, Patch(patch.replace, Absent, [])), Patch(Absent, patch.merge, [])), Patch(Absent, Absent, patch.unset))
  {}

  lemma {:induction false} SplitOfJoin(segments: seq<string>)
    requires segments != [] && forall i | 0 <= i < |segments| :: '.' !in segments[i]
    ensures Split(Join(segments, '.'), '.') == segments
    decreases |segments|
  {
    if |segments| == 1 {
      SplitOfPart(segments[0], []);
      assert segments[0] + [] == segments[0];
    } else {
      SplitOfJoin(segments[1..]);
      var rest := ['.'] + Join(segments[1..], '.');
      assert rest[1..] == Join(segments[1..], '.');
      SplitOfPart(segments[0], rest);
      assert Join(segments, '.') == segments[0] + rest;
    }
  }

  lemma {:induction false} SplitOfPart(part: string, rest: string)
    requires '.' !in part && (rest == [] || rest[0] == '.')
    ensures Split(part + rest, '.') == if rest == [] then [part] else [part] + Split(rest[1..], '.')
    decreases |part|
  {
    var s := part + rest;
    if part == [] {
      assert s == rest;
    } else {
      assert s[0] == part[0] && part[0] in part && s[1..] == part[1..] + rest;
      SplitOfPart(part[1..], rest);
      assert [part[0]] + part[1..] == part;
      assert Split(s, '.') == [[s[0]] + Split(s[1..], '.')[0]] + Split(s[1..], '.')[1..];
    }
  }

  predicate Dotless(segments: seq<string>) { segments != [] && forall i | 0 <= i < |segments| :: '.' !in segments[i] }

  /** Unsetting a dotted path fails on a blank segment; else it removes that path and what is below it, and nothing more. */
  lemma UnsetRemovesExactly(current: JsonObject, segments: seq<string>, path: Path)
    requires Dotless(segments)
    ensures var r := Apply(current, Patch(Absent, Absent, [Join(segments, '.')]));
            && (r.Err? <==> exists i | 0 <= i < |segments| :: AllSpace(segments[i]))
            && (r.Ok? ==>
                  && (Lookup(r.value, path).Ok? <==> Lookup(current, path).Ok? && !(segments <= path))
                  && (Lookup(r.value, path).Ok? && !Lookup(current, path).value.Object? ==> Lookup(r.value, path) == Lookup(current, path)))
  {
    var patch := Patch(Absent, Absent, [Join(segments, '.')]);
    SplitOfJoin(segments);
    assert Paths(patch.unset) == [segments];
    assert WellFormedPath(Join(segments, '.')) <==> forall i | 0 <= i < |segments| :: Trim(segments[i]) != [];
    if Accepted(patch) {
      PatchKeepsExactlyUncovered(current, patch, path);
      assert PathSet([segments]) == {segments};
      assert segments <= path <==> Covered({segments}, path) by {
        if segments <= path { assert path[..|segments|] == segments; }
      }
    }
  }

  /** Which patches are refused, whatever the attributes: a part that is not an object, or a blank path segment. */
  lemma RefusedIff(current: JsonObject, patch: Patch)
    ensures Apply(current, patch).Err?
            <==> || NotAnObject(patch.replace) || NotAnObject(patch.merge)
                 || exists p, part :: p in patch.unset && part in Split(p, '.') && AllSpace(part)
  {}

  predicate NotAnObject(m: Message) { m.Malformed? || (m.Document? && !Decode(m.raw).Object?) }

  // ---------- canonical form ----------

  /** `canonicalCustomerAttributeJSON`: decode, then encode with sorted keys. */
  function Canonical(m: Message): Message {
    if DecodeObject(m).Ok? then Document(Encode(DecodeObject(m).value)) else m
  }

  function CanonicalPatch(patch: Patch): Patch {
    patch.(replace := Canonical(patch.replace), merge := Canonical(patch.merge))
  }

  lemma CanonicalDecodes(m: Message)
    ensures DecodeObject(Canonical(m)) == DecodeObject(m)
    ensures Canonical(Canonical(m)) == Canonical(m)
    ensures Canonical(m) == Absent <==> m == Absent
  {
    if DecodeObject(m).Ok? { DecodeEncode(DecodeObject(m).value); }
  }

  /** The stored, canonical patch does what the received one does, and canonicalising it again is a no-op. */
  lemma CanonicalPatchEquivalent(current: JsonObject, patch: Patch)
    ensures Apply(current, CanonicalPatch(patch)) == Apply(current, patch)
    ensures CanonicalPatch(CanonicalPatch(patch)) == CanonicalPatch(patch)
  {
    CanonicalDecodes(patch.replace);
    CanonicalDecodes(patch.merge);
  }
}
