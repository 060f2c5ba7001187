/**
 The recursive merge behind a customer attribute patch, and what it is equal to.
 `Merge` is the value that `deepMergeCustomerAttributes` leaves in its target; the in-place
 algorithm itself is in `AttributeHeap`.
 */
module AttributeMerge {
  import opened JsonValues

  function Merge(target: JsonObject, incoming: JsonObject): JsonObject
    decreases incoming
  {
    Object(map k | k in target.fields.Keys + incoming.fields.Keys ::
             if k !in incoming.fields then target.fields[k]
             else if incoming.fields[k].Object? && Member(target, k).Object?
             then Merge(target.fields[k], incoming.fields[k])
             else incoming.fields[k])
  }

  lemma {:induction false} MergeWithSelf(x: JsonObject)
    ensures Merge(x, x) == x
    decreases x
  {
    forall k | k in x.fields && x.fields[k].Object?
      ensures Merge(x.fields[k], x.fields[k]) == x.fields[k]
    {
      MergeWithSelf(x.fields[k]);
    }
    assert Merge(x, x).fields == x.fields;
  }

  /** Merging the same document a second time changes nothing. */
  lemma {:induction false} MergeIdempotent(target: JsonObject, incoming: JsonObject)
    ensures Merge(Merge(target, incoming), incoming) == Merge(target, incoming)
    decreases incoming
  {
    var once := Merge(target, incoming);
    forall k | k in incoming.fields && incoming.fields[k].Object?
      ensures Merge(once, incoming).fields[k] == once.fields[k]
    {
      if Member(target, k).Object? {
        MergeIdempotent(target.fields[k], incoming.fields[k]);
      } else {
        MergeWithSelf(incoming.fields[k]);
      }
    }
    assert Merge(once, incoming).fields == once.fields;
  }

  // ---------- RFC 7396 ----------

  /** MergePatch, section 2 of RFC 7396. */
  function MergePatch(target: Json, patch: Json): Json
    decreases patch
  {
    if !patch.Object? then patch else
    var base := if target.Object? then target else EMPTY;
    Object(map k | k in base.fields.Keys + patch.fields.Keys && !(k in patch.fields && patch.fields[k].Null?) ::
             if k in patch.fields then MergePatch(Member(base, k), patch.fields[k]) else base.fields[k])
  }

  /** No member reachable through objects alone is null; nulls inside arrays are allowed. */
  predicate NullFree(j: Json) {
    j.Object? ==> forall k | k in j.fields :: !j.fields[k].Null? && NullFree(j.fields[k])
  }

  lemma {:induction false} MergePatchOntoNonObject(target: Json, patch: Json)
    requires !target.Object?
    ensures MergePatch(target, patch) == patch <==> NullFree(patch)
    decreases patch
  {
    if patch.Object? {
      var r := MergePatch(target, patch).fields;
      forall k | k in patch.fields
        ensures !patch.fields[k].Null? ==> k in r && (r[k] == patch.fields[k] <==> NullFree(patch.fields[k]))
      {
        MergePatchOntoNonObject(Null, patch.fields[k]);
      }
      if NullFree(patch) {
        assert r == patch.fields;
      } else {
        var k :| k in patch.fields && (patch.fields[k].Null? || !NullFree(patch.fields[k]));
        assert k !in r || r[k] != patch.fields[k];
      }
    }
  }

  /**
   The customer merge is RFC 7396 exactly on patches without nulls: where the RFC deletes a
   member, the customer merge stores a null.
   */
  lemma {:induction false} MergeIsMergePatchIffNullFree(target: JsonObject, incoming: JsonObject)
    ensures MergePatch(target, incoming) == Merge(target, incoming) <==> NullFree(incoming)
    decreases incoming
  {
    var ours, rfc := Merge(target, incoming).fields, MergePatch(target, incoming).fields;
    forall k | k in incoming.fields
      ensures !incoming.fields[k].Null? ==> k in rfc && (rfc[k] == ours[k] <==> NullFree(incoming.fields[k]))
    {
      if !incoming.fields[k].Null? {
        assert rfc[k] == MergePatch(Member(target, k), incoming.fields[k]);
      }
      if incoming.fields[k].Object? && Member(target, k).Object? {
        MergeIsMergePatchIffNullFree(target.fields[k], incoming.fields[k]);
      } else if incoming.fields[k].Object? {
        MergePatchOntoNonObject(Member(target, k), incoming.fields[k]);
      }
    }
    if NullFree(incoming) {
      assert ours == rfc;
    } else {
      var k :| k in incoming.fields && (incoming.fields[k].Null? || !NullFree(incoming.fields[k]));
      assert k in ours;
      assert k !in rfc || rfc[k] != ours[k];
    }
  }

  // ---------- associativity ----------

  /** `c` never has an object at a path where `b` has something else. */
  predicate Compatible(b: JsonObject, c: JsonObject)
    decreases c
  {
    forall k | k in b.fields && k in c.fields && c.fields[k].Object? ::
      b.fields[k].Object? && Compatible(b.fields[k], c.fields[k])
  }

  ghost predicate Associates(a: JsonObject, b: JsonObject, c: JsonObject) {
    Merge(Merge(a, b), c) == Merge(a, Merge(b, c))
  }

  lemma {:induction false} CompatibleAssociates(a: JsonObject, b: JsonObject, c: JsonObject)
    requires Compatible(b, c)
    ensures Associates(a, b, c)
    decreases c
  {
    var left, right := Merge(Merge(a, b), c).fields, Merge(a, Merge(b, c)).fields;
    assert left.Keys == right.Keys == a.fields.Keys + b.fields.Keys + c.fields.Keys;
    forall k | k in left ensures left[k] == right[k] {
      if k in c.fields && c.fields[k].Object? && Member(a, k).Object? && Member(b, k).Object? {
        CompatibleAssociates(a.fields[k], b.fields[k], c.fields[k]);
        MergeAt(a, b, c, k);
      } else {
        AssociatesElsewhere(a, b, c, k);
      }
    }
  }

  /** A member that is not an object in all three reads the same whichever merge is made first. */
  lemma AssociatesElsewhere(a: JsonObject, b: JsonObject, c: JsonObject, k: string)
    requires Compatible(b, c) && k in Merge(Merge(a, b), c).fields && k in Merge(a, Merge(b, c)).fields
    requires !(k in c.fields && c.fields[k].Object? && Member(a, k).Object? && Member(b, k).Object?)
    ensures Merge(Merge(a, b), c).fields[k] == Merge(a, Merge(b, c)).fields[k]
  {
    var ab := Merge(a, b);
    if k !in c.fields { assert Merge(ab, c).fields[k] == ab.fields[k]; }
  }

  lemma {:induction false} IncompatibleWitness(b: JsonObject, c: JsonObject) returns (a: JsonObject)
    requires !Compatible(b, c)
    ensures !Associates(a, b, c)
    decreases c
  {
    var k :| k in b.fields && k in c.fields && c.fields[k].Object?
             && !(b.fields[k].Object? && Compatible(b.fields[k], c.fields[k]));
    if b.fields[k].Object? {
      var inner := IncompatibleWitness(b.fields[k], c.fields[k]);
      a := Object(map[k := inner]);
      MergeAt(a, b, c, k);
    } else {
      a := ClashWitness(b, c, k);
    }
  }

  lemma ClashWitness(b: JsonObject, c: JsonObject, k: string) returns (a: JsonObject)
    requires k in b.fields && k in c.fields && c.fields[k].Object? && !b.fields[k].Object?
    ensures !Associates(a, b, c)
  {
    var unused := FreshKey(c.fields[k].fields.Keys);
    var inner: JsonObject := Object(map[unused := Null]);
    a := Object(map[k := inner]);
    MergeAt(a, b, c, k);
    assert unused in Merge(inner, c.fields[k]).fields;
  }

  /** Both ways of merging three documents, read at a member that is an object in `a` and `c`. */
  lemma MergeAt(a: JsonObject, b: JsonObject, c: JsonObject, k: string)
    requires k in a.fields && k in b.fields && k in c.fields && a.fields[k].Object? && c.fields[k].Object?
    ensures k in Merge(Merge(a, b), c).fields && k in Merge(a, Merge(b, c)).fields
    ensures Merge(Merge(a, b), c).fields[k] ==
            if b.fields[k].Object? then Merge(Merge(a.fields[k], b.fields[k]), c.fields[k]) else c.fields[k]
    ensures Merge(a, Merge(b, c)).fields[k] ==
            Merge(a.fields[k], if b.fields[k].Object? then Merge(b.fields[k], c.fields[k]) else c.fields[k])
  {
    var ab, bc := Merge(a, b), Merge(b, c);
    assert ab.fields[k] == if b.fields[k].Object? then Merge(a.fields[k], b.fields[k]) else b.fields[k];
    assert bc.fields[k] == if b.fields[k].Object? then Merge(b.fields[k], c.fields[k]) else c.fields[k];
  }

  /** Merging is associative over every current document exactly for compatible patches. */
  lemma AssociativeIffCompatible(b: JsonObject, c: JsonObject)
    ensures (forall a: JsonObject :: Associates(a, b, c)) <==> Compatible(b, c)
  {
    if Compatible(b, c) {
      forall a: JsonObject ensures Associates(a, b, c) { CompatibleAssociates(a, b, c); }
    } else {
      var a := IncompatibleWitness(b, c);
    }
  }
}
