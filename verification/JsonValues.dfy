/** Decoded JSON documents, as `encoding/json` leaves them in `interface{}` values. */
module JsonValues {

  datatype Json =
    | Null
    | Bool(flag: bool)
    | Number(value: real)
    | Text(text: string)
    | Array(items: seq<Json>)
    | Object(fields: map<string, Json>)

  type JsonObject = j: Json | j.Object? witness Object(map[])

  const EMPTY: JsonObject := Object(map[])

  /** Member lookup that reads an absent member as JSON null, as `x.(map)` on a missing key does. */
  function Member(o: JsonObject, k: string): Json {
    if k in o.fields then o.fields[k] else Null
  }

  /** Some key lies outside any finite set of keys. */
  lemma {:induction false} FreshKey(used: set<string>) returns (k: string)
    ensures k !in used
  {
    var bound := LongestKey(used);
    k := seq(bound + 1, _ => 'x');
  }

  lemma {:induction false} LongestKey(used: set<string>) returns (bound: nat)
    ensures forall k :: k in used ==> |k| <= bound
  {
    if used == {} {
      bound := 0;
    } else {
      var k :| k in used;
      var rest := LongestKey(used - {k});
      bound := if rest < |k| then |k| else rest;
      assert forall j :: j in used ==> j == k || j in used - {k};
    }
  }
}
