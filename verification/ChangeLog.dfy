/**
 The per-column change logs the triggers write: what one entry says, and what replaying or undoing
 a whole log gives. A row maps its columns to values; an absent column is SQL NULL.
 */
module ChangeLog {
  import opened JsonValues

  type Row<K> = map<K, Json>

  datatype Change = Change(before: Json, after: Json)

  type Changes<K> = map<K, Change>

  /** How `jsonb_build_object` shows a cell: SQL NULL becomes JSON null. */
  function Shown<K(==,!new)>(r: Row<K>, k: K): Json { if k in r then r[k] else Null }

  /** `IS DISTINCT FROM`, which does tell SQL NULL from JSON null. */
  predicate IsDistinct<K(==,!new)>(o: Row<K>, n: Row<K>, k: K) {
    if k in o && k in n then o[k] != n[k] else k in o || k in n
  }

  function Diff<K(==,!new)>(o: Row<K>, n: Row<K>): Changes<K> {
    map k | k in o.Keys + n.Keys && IsDistinct(o, n, k) :: Change(Shown(o, k), Shown(n, k))
  }

  function Restricted<K(==,!new)>(r: Row<K>, columns: seq<K>): Row<K> { map k | k in r && k in columns :: r[k] }

  /** The same values under the names of their keys. */
  function Renamed<K(!new), V>(m: map<K, V>, name: K -> string): (r: map<string, V>)
    requires forall a, b | name(a) == name(b) :: a == b
    ensures forall k | k in m :: name(k) in r && r[name(k)] == m[k]
    ensures forall s | s in r :: exists k :: k in m && s == name(k)
  {
    map k | k in m :: name(k) := m[k]
  }

  lemma RenamedAt<K(!new), V>(m: map<K, V>, name: K -> string, k: K)
    requires forall a, b | name(a) == name(b) :: a == b
    ensures name(k) in Renamed(m, name) <==> k in m
    ensures k in m ==> Renamed(m, name)[name(k)] == m[k]
  {
    if name(k) in Renamed(m, name) {
      var j :| j in m && name(k) == name(j);
    }
  }

  /** The `changes` document of an entry. */
  function Encoded(c: Changes<string>): Json {
    Object(map k | k in c :: Object(map["old" := c[k].before, "new" := c[k].after]))
  }

  function Decoded(j: Json): Changes<string> {
    if !j.Object? then map[]
    else map k | k in j.fields && j.fields[k].Object? :: Change(Member(j.fields[k], "old"), Member(j.fields[k], "new"))
  }

  lemma DecodedEncoded(c: Changes<string>)
    ensures Decoded(Encoded(c)) == c
  {
    var j := Encoded(c);
    assert "old" != "new";
    forall k | k in c
      ensures k in Decoded(j) && Decoded(j)[k] == c[k]
    {
      assert j.fields[k] == Object(map["old" := c[k].before, "new" := c[k].after]);
    }
  }

  // ---------- the two accumulating loops ----------

  /** What `c` holds under `k` once `k` has been compared. */
  predicate Holds<K(==,!new)>(c: Changes<K>, o: Row<K>, n: Row<K>, k: K) {
    if IsDistinct(o, n, k) then k in c && c[k] == Change(Shown(o, k), Shown(n, k)) else k !in c
  }

  lemma HoldsAll<K(!new)>(c: Changes<K>, o: Row<K>, n: Row<K>)
    requires forall k :: Holds(c, o, n, k)
    ensures c == Diff(o, n)
  {
    forall k: K
      ensures (k in c <==> k in Diff(o, n)) && (k in c ==> c[k] == Diff(o, n)[k])
    {
      assert Holds(c, o, n, k);
    }
  }

  /** The column-by-column comparison of `track_contact_changes` and of the generic message update. */
  method DiffColumns<K(==,!new)>(o: Row<K>, n: Row<K>, columns: seq<K>) returns (changes: Changes<K>)
    ensures changes == Diff(Restricted(o, columns), Restricted(n, columns))
  {
    changes := map[];
    for i := 0 to |columns|
      invariant forall k :: if k in columns[..i] then Holds(changes, o, n, k) else k !in changes
    {
      var c := columns[i];
      assert forall k :: k in columns[..i + 1] <==> k in columns[..i] || k == c;
      if IsDistinct(o, n, c) {
        changes := changes[c := Change(Shown(o, c), Shown(n, c))];
      }
    }
    forall k
      ensures Holds(changes, Restricted(o, columns), Restricted(n, columns), k)
    {
      assert columns[..|columns|] == columns;
      assert k in columns ==> Holds(changes, o, n, k);
    }
    HoldsAll(changes, Restricted(o, columns), Restricted(n, columns));
  }

  /** The loop of `track_custom_event_timeline` over the keys of both property objects, in any order. */
  method DiffProperties<K(==,!new)>(o: Row<K>, n: Row<K>) returns (changes: Changes<K>)
    ensures changes == Diff(o, n)
  {
    changes := map[];
    var keys := o.Keys + n.Keys;
    while keys != {}
      invariant forall k :: if k !in keys then Holds(changes, o, n, k) else k !in changes
      decreases |keys|
    {
      var k :| k in keys;
      keys := keys - {k};
      if IsDistinct(o, n, k) {
        changes := changes[k := Change(Shown(o, k), Shown(n, k))];
      }
    }
    HoldsAll(changes, o, n);
  }

  // ---------- what a log determines ----------

  /** Equal but for SQL NULL against JSON null. */
  ghost predicate Same<K(!new)>(a: Row<K>, b: Row<K>) { forall k :: Shown(a, k) == Shown(b, k) }

  function Redo<K(==,!new)>(r: Row<K>, c: Changes<K>): Row<K> { r + map k | k in c :: c[k].after }

  function Undo<K(==,!new)>(r: Row<K>, c: Changes<K>): Row<K> { r + map k | k in c :: c[k].before }

  /** Applies the entries in append order. */
  function Replayed<K(==,!new)>(r: Row<K>, log: seq<Changes<K>>): Row<K>
    decreases |log|
  {
    if log == [] then r else Redo(Replayed(r, log[..|log| - 1]), log[|log| - 1])
  }

  /** Takes the entries back, newest first. */
  function Unwound<K(==,!new)>(r: Row<K>, log: seq<Changes<K>>): Row<K>
    decreases |log|
  {
    if log == [] then r else Unwound(Undo(r, log[|log| - 1]), log[..|log| - 1])
  }

  /** No entry exactly when nothing changed. */
  lemma DiffEmptyIffEqual<K(!new)>(o: Row<K>, n: Row<K>)
    ensures Diff(o, n) == map[] <==> o == n
  {
    var d := Diff(o, n);
    if d == map[] {
      forall k: K
        ensures !IsDistinct(o, n, k)
      {
        assert k in d <==> k in o.Keys + n.Keys && IsDistinct(o, n, k);
      }
      forall k: K
        ensures (k in o <==> k in n) && (k in o ==> o[k] == n[k])
      {
        assert !IsDistinct(o, n, k);
      }
    }
  }

  lemma RedoOneDiff<K(!new)>(a: Row<K>, o: Row<K>, n: Row<K>)
    requires Same(a, o)
    ensures Same(Redo(a, Diff(o, n)), n)
  {
    forall k: K
      ensures Shown(Redo(a, Diff(o, n)), k) == Shown(n, k)
    {
      assert Shown(a, k) == Shown(o, k);
    }
  }

  lemma UndoOneDiff<K(!new)>(b: Row<K>, o: Row<K>, n: Row<K>)
    requires Same(b, n)
    ensures Same(Undo(b, Diff(o, n)), o)
  {
    forall k: K
      ensures Shown(Undo(b, Diff(o, n)), k) == Shown(o, k)
    {
      assert Shown(b, k) == Shown(n, k);
    }
  }

  lemma {:induction false} UnwoundSame<K(!new)>(a: Row<K>, b: Row<K>, log: seq<Changes<K>>)
    requires Same(a, b)
    ensures Same(Unwound(a, log), Unwound(b, log))
    decreases |log|
  {
    if log != [] {
      var c := log[|log| - 1];
      forall k: K
        ensures Shown(Undo(a, c), k) == Shown(Undo(b, c), k)
      {
        assert Shown(a, k) == Shown(b, k);
      }
      UnwoundSame(Undo(a, c), Undo(b, c), log[..|log| - 1]);
    }
  }
}
