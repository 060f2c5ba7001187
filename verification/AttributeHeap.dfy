/**
 The attribute patch engine as it runs: nested maps are shared mutable objects, merged and cut
 in place. Each map owns a footprint `Repr`; nested maps own disjoint parts of it.
 */
module AttributeHeap {
  import opened AttributeMerge
  import opened JsonValues

  datatype Attribute = Plain(json: Json) | Nested(node: AttributeMap)

  class AttributeMap {
    var entries: map<string, Attribute>
    ghost var Repr: set<AttributeMap>

    ghost predicate Valid()
      reads this, Repr
      decreases Repr
    {
      && this in Repr
      && (forall k | k in entries :: !entries[k].Nested? ==> !entries[k].json.Object?)
      && (forall k | k in entries :: entries[k].Nested? ==>
            var c := entries[k].node; c in Repr && c.Repr <= Repr - {this} && c.Valid())
      && (forall k, j | k in entries && j in entries && k != j :: entries[k].Nested? && entries[j].Nested? ==>
            entries[k].node.Repr !! entries[j].node.Repr)
    }

    ghost function ValueAt(k: string): Json
      requires Valid() && k in entries
      reads this, Repr
      decreases Repr, 0
    {
      match entries[k]
      case Plain(j) => j
      case Nested(c) => c.Value()
    }

    /** The document this map stands for. */
    ghost function Value(): JsonObject
      requires Valid()
      reads this, Repr
      decreases Repr, 1
    {
      Object(map k | k in entries :: ValueAt(k))
    }

    constructor ()
      ensures Valid() && fresh(Repr) && entries == map[] && Value() == EMPTY
    {
      entries := map[];
      Repr := {this};
    }
  }

  /** The objects owned by the map stored at `k`, if a map is stored there. */
  ghost function Footprint(entries: map<string, Attribute>, k: string): set<AttributeMap>
    reads if k in entries && entries[k].Nested? then {entries[k].node} else {}
  {
    if k in entries && entries[k].Nested? then entries[k].node.Repr else {}
  }

  /** What each member owns. */
  ghost function Owned(m: AttributeMap): map<string, set<AttributeMap>>
    requires m.Valid()
    reads m, m.Repr
  {
    map k | k in m.entries :: Footprint(m.entries, k)
  }

  /** A footprint may grow without changing what the map stands for. */
  ghost method Enlarge(m: AttributeMap, extra: set<AttributeMap>)
    requires m.Valid()
    modifies m`Repr
    ensures m.Valid() && m.Repr == old(m.Repr) + extra && m.Value() == old(m.Value())
    ensures forall k | k in m.entries :: m.ValueAt(k) == old(m.ValueAt(k))
  {
    m.Repr := m.Repr + extra;
    forall k | k in m.entries ensures m.ValueAt(k) == old(m.ValueAt(k)) {
      if m.entries[k].Nested? {
        assert m !in m.entries[k].node.Repr;
        assert m.entries[k].node.Value() == old(m.entries[k].node.Value());
      }
    }
  }

  /** `value` can be stored under `key`: its objects are held by `m` and by no other member. */
  ghost predicate Fits(m: AttributeMap, key: string, value: Attribute)
    reads m, m.Repr, if value.Nested? then {value.node} + value.node.Repr else {}
  {
    && m.Valid()
    && match value
       case Plain(j) => !j.Object?
       case Nested(c) =>
         && c.Valid() && c.Repr <= m.Repr - {m}
         && forall k | k in m.entries :: Footprint(m.entries, k) !! c.Repr
  }

  ghost function ValueOf(value: Attribute): Json
    requires value.Nested? ==> value.node.Valid()
    reads if value.Nested? then {value.node} + value.node.Repr else {}
  {
    match value
    case Plain(j) => j
    case Nested(c) => c.Value()
  }

  method StoreEntry(target: AttributeMap, key: string, value: Attribute)
    requires Fits(target, key, value)
    requires !(value.Nested? && key in target.entries && target.entries[key].Nested?)
    modifies target`entries
    ensures target.Valid() && target.entries == old(target.entries)[key := value]
    ensures target.Value() == WithMember(old(target.Value()), key, old(ValueOf(value)))
  {
    target.entries := target.entries[key := value];
    forall k | k in target.entries && target.entries[k].Nested?
      ensures var n := target.entries[k].node; n.Repr == old(n.Repr) && n.Valid() && n.Value() == old(n.Value())
    {
      var n := target.entries[k].node;
      assert k == key || old(target.entries)[k] == Nested(n);
      assert target !in old(n.Repr);
    }
    assert target.Value().fields == WithMember(old(target.Value()), key, old(ValueOf(value))).fields;
  }

  method MergeChild(target: AttributeMap, key: string, incoming: AttributeMap)
    requires Fits(target, key, Nested(incoming)) && key in target.entries && target.entries[key].Nested?
    modifies target.entries[key].node.Repr
    ensures target.Valid() && target.Repr == old(target.Repr)
    ensures target.entries.Keys == old(target.entries.Keys) + {key}
    ensures Footprint(target.entries, key) <= old(Footprint(target.entries, key)) + old(incoming.Repr)
    ensures forall k | k in target.entries && k != key ::
              Footprint(target.entries, k) == old(Footprint(target.entries, k))
    ensures target.Value() == WithMember(old(target.Value()), key, old(incoming.Value()))
    decreases incoming.Repr, 3
  {
    ghost var before, v := target.Value(), incoming.Value();
    forall k | k in target.entries ensures before.fields[k] == ValueOf(target.entries[k]) {
      assert before.fields[k] == target.ValueAt(k);
    }
    DeepMerge(target.entries[key].node, incoming);
    forall k | k in target.entries && k != key
      ensures Footprint(target.entries, k) == old(Footprint(target.entries, k))
      ensures target.entries[k].Nested? ==> target.entries[k].node.Valid() && target.entries[k].node.Value() == before.fields[k]
    {
      if target.entries[k].Nested? {
        var n := target.entries[k].node;
        assert old(n.Valid()) && n in old(n.Repr) && old(n.Repr) !! old(target.entries[key].node.Repr);
      }
    }
    MergedAt(target, key, before, v);
  }

  lemma MergedAt(target: AttributeMap, key: string, before: JsonObject, v: JsonObject)
    requires target.Valid() && target.entries.Keys == before.fields.Keys && key in target.entries && before.fields[key].Object?
    requires forall k | k in target.entries ::
               ValueOf(target.entries[k]) == if k == key then Merge(before.fields[key], v) else before.fields[k]
    ensures target.Value() == WithMember(before, key, v)
  {
    forall k | k in target.entries ensures target.ValueAt(k) == ValueOf(target.entries[k]) {}
    assert target.Value().fields == WithMember(before, key, v).fields;
  }

  /** The body of the loop: merge one incoming member, standing for `v` and owning `extra`. */
  method MergeEntry(target: AttributeMap, key: string, value: Attribute, ghost v: Json, ghost extra: set<AttributeMap>)
    requires Fits(target, key, value) && v == ValueOf(value)
    requires extra == if value.Nested? then value.node.Repr else {}
    modifies target`entries, Footprint(target.entries, key)
    ensures target.Valid() && target.Repr == old(target.Repr)
    ensures Moved(old(Owned(target)), Owned(target), key, extra)
    ensures target.Value() == WithMember(old(target.Value()), key, v)
    decreases extra, 4
  {
    if value.Nested? && key in target.entries && target.entries[key].Nested? {
      MergeChild(target, key, value.node);
    } else {
      StoreEntry(target, key, value);
    }
  }

  /** After a round: the member at `key` may own `extra` besides, the others own what they did. */
  ghost predicate Moved(before: map<string, set<AttributeMap>>, after: map<string, set<AttributeMap>>,
                        key: string, extra: set<AttributeMap>)
  {
    && after.Keys == before.Keys + {key}
    && after[key] <= (if key in before then before[key] else {}) + extra
    && forall k | k in before && k != key :: after[k] == before[k]
  }

  /**
   The members in `pending` are still to be merged. `held` covers what the members of the target
   own by now; a pending member brings nothing that is held, and meets nothing of the incoming map.
   */
  ghost predicate Apart(owned: map<string, set<AttributeMap>>, brought: map<string, set<AttributeMap>>,
                        incoming: set<AttributeMap>, pending: set<string>, held: set<AttributeMap>)
  {
    && pending <= brought.Keys
    && (forall k | k in owned :: owned[k] <= held)
    && (forall k | k in pending :: brought[k] !! held)
    && (forall k | k in pending && k in owned :: owned[k] !! incoming)
  }

  ghost predicate Ready(target: AttributeMap, incoming: AttributeMap, pending: set<string>, held: set<AttributeMap>)
    reads target, target.Repr, incoming, incoming.Repr
  {
    && target.Valid() && incoming.Valid() && incoming.Repr <= target.Repr - {target}
    && Apart(Owned(target), Owned(incoming), incoming.Repr, pending, held)
  }

  /** A round keeps what the later rounds need. */
  lemma StillApart(before: map<string, set<AttributeMap>>, after: map<string, set<AttributeMap>>,
                   brought: map<string, set<AttributeMap>>, incoming: set<AttributeMap>,
                   pending: set<string>, held: set<AttributeMap>, key: string)
    requires Apart(before, brought, incoming, pending, held) && key in pending
    requires Moved(before, after, key, brought[key])
    requires forall k, j | k in brought && j in brought && k != j :: brought[k] !! brought[j]
    ensures Apart(after, brought, incoming, pending - {key}, held + brought[key])
  {}

  ghost method BeginMerge(target: AttributeMap, incoming: AttributeMap) returns (held: set<AttributeMap>)
    requires target.Valid() && incoming.Valid() && target.Repr !! incoming.Repr
    modifies target`Repr
    ensures target.Repr == old(target.Repr) + incoming.Repr && incoming.Repr == old(incoming.Repr)
    ensures Ready(target, incoming, incoming.entries.Keys, held)
    ensures target.Value() == old(target.Value()) && incoming.Value() == old(incoming.Value())
  {
    held := target.Repr;
    assert target !in incoming.Repr && incoming != target;
    Enlarge(target, incoming.Repr);
    forall k | k in target.entries ensures Footprint(target.entries, k) <= held {}
  }

  /** The next member can be stored, and merging it does not reach into the incoming map. */
  lemma NextFits(target: AttributeMap, incoming: AttributeMap, pending: set<string>, held: set<AttributeMap>, key: string)
    requires Ready(target, incoming, pending, held) && key in pending
    ensures Fits(target, key, incoming.entries[key]) && Footprint(target.entries, key) !! incoming.Repr
  {
    assert Owned(incoming)[key] !! held;
    forall k | k in target.entries ensures Footprint(target.entries, k) !! Footprint(incoming.entries, key) {
      assert Owned(target)[k] <= held;
    }
    assert key in target.entries ==> key in Owned(target);
  }

  /** Merging one member leaves the incoming map, whose objects the target holds by now, as it was. */
  method MergeNext(target: AttributeMap, incoming: AttributeMap, key: string,
                   ghost pending: set<string>, ghost held: set<AttributeMap>)
    requires Ready(target, incoming, pending, held) && key in pending
    modifies target`entries, Footprint(target.entries, key)
    ensures target.Valid() && target.Repr == old(target.Repr)
    ensures incoming.Valid() && incoming.Repr == old(incoming.Repr) && Owned(incoming) == old(Owned(incoming))
    ensures incoming.Value() == old(incoming.Value())
    ensures Moved(old(Owned(target)), Owned(target), key, Owned(incoming)[key])
    ensures target.Value() == WithMember(old(target.Value()), key, old(incoming.ValueAt(key)))
    decreases incoming.Repr, 0
  {
    NextFits(target, incoming, pending, held, key);
    MergeEntry(target, key, incoming.entries[key], incoming.ValueAt(key), Footprint(incoming.entries, key));
  }

  /** One round of the loop, with what it leaves for the later rounds. */
  method MergeRound(target: AttributeMap, incoming: AttributeMap, key: string,
                    ghost pending: set<string>, ghost held: set<AttributeMap>)
    requires Ready(target, incoming, pending, held) && key in pending
    modifies target`entries, Footprint(target.entries, key)
    ensures target.Repr == old(target.Repr) && incoming.Repr == old(incoming.Repr)
    ensures incoming.Value() == old(incoming.Value())
    ensures Ready(target, incoming, pending - {key}, held + Owned(incoming)[key])
    ensures target.Value() == WithMember(old(target.Value()), key, old(incoming.ValueAt(key)))
    decreases incoming.Repr, 1
  {
    ghost var before := Owned(target);
    MergeNext(target, incoming, key, pending, held);
    StillApart(before, Owned(target), Owned(incoming), incoming.Repr, pending, held, key);
  }

  /** The target after one incoming member has been merged. */
  ghost function WithMember(t: JsonObject, k: string, v: Json): JsonObject {
    Object(t.fields[k := if v.Object? && Member(t, k).Object? then Merge(t.fields[k], v) else v])
  }

  /** The target after the members outside `pending` have been merged. */
  ghost function PartlyMerged(t: JsonObject, i: JsonObject, pending: set<string>): JsonObject {
    Object(map k | k in t.fields.Keys + (i.fields.Keys - pending) ::
             if k in i.fields && k !in pending then Merge(t, i).fields[k] else t.fields[k])
  }

  lemma PartlyMergedEnds(t: JsonObject, i: JsonObject)
    ensures PartlyMerged(t, i, i.fields.Keys) == t && PartlyMerged(t, i, {}) == Merge(t, i)
  {
    assert PartlyMerged(t, i, i.fields.Keys).fields == t.fields;
    assert PartlyMerged(t, i, {}).fields == Merge(t, i).fields;
  }

  lemma PartlyMergedStep(t: JsonObject, i: JsonObject, pending: set<string>, key: string)
    requires key in pending && pending <= i.fields.Keys
    ensures WithMember(PartlyMerged(t, i, pending), key, i.fields[key]) == PartlyMerged(t, i, pending - {key})
  {
    assert WithMember(PartlyMerged(t, i, pending), key, i.fields[key]).fields == PartlyMerged(t, i, pending - {key}).fields;
  }

  /**
   `deepMergeCustomerAttributes`: the incoming members are visited in any order, and nested maps
   of `incoming` end up shared with `target`.
   */
  method DeepMerge(target: AttributeMap, incoming: AttributeMap)
    requires target.Valid() && incoming.Valid() && target.Repr !! incoming.Repr
    modifies target.Repr
    ensures target.Valid() && target.Repr == old(target.Repr) + incoming.Repr
    ensures target.Value() == Merge(old(target.Value()), old(incoming.Value()))
    decreases incoming.Repr, 2
  {
    ghost var t0, i0 := target.Value(), incoming.Value();
    ghost var held := BeginMerge(target, incoming);
    PartlyMergedEnds(t0, i0);
    var pending := incoming.entries.Keys;
    while pending != {}
      invariant Ready(target, incoming, pending, held)
      invariant target.Repr == old(target.Repr) + incoming.Repr && incoming.Repr == old(incoming.Repr)
      invariant incoming.Value() == i0 && target.Value() == PartlyMerged(t0, i0, pending)
      decreases pending
    {
      var key :| key in pending;
      PartlyMergedStep(t0, i0, pending, key);
      MergeRound(target, incoming, key, pending, held);
      held := held + Owned(incoming)[key];
      pending := pending - {key};
    }
  }
}
