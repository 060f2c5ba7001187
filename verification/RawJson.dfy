/**
 JSON text as written: object members in order, names possibly repeated. Decoding lets the
 last member of a name win; encoding writes members in ascending key order.
 */
module RawJson {
  import opened JsonValues
  import opened Texts

  datatype Raw =
    | RawNull
    | RawBool(flag: bool)
    | RawNumber(value: real)
    | RawText(text: string)
    | RawArray(items: seq<Raw>)
    | RawObject(members: seq<RawMember>)

  datatype RawMember = RawMember(name: string, value: Raw)

  function Decode(raw: Raw): Json {
    match raw
    case RawNull => Null
    case RawBool(b) => Bool(b)
    case RawNumber(n) => Number(n)
    case RawText(t) => Text(t)
    case RawArray(items) => Array(seq(|items|, i requires 0 <= i < |items| => Decode(items[i])))
    case RawObject(members) => Object(DecodeMembers(members))
  }

  function DecodeMembers(members: seq<RawMember>): map<string, Json> {
    if members == [] then map[]
    else
      var last := members[|members| - 1];
      DecodeMembers(members[..|members| - 1])[last.name := Decode(last.value)]
  }

  /** Of members with one name the last counts, and no other name matters to it. */
  lemma {:induction false} LastMemberWins(before: seq<RawMember>, m: RawMember, after: seq<RawMember>)
    requires forall i | 0 <= i < |after| :: after[i].name != m.name
    ensures var fields := DecodeMembers(before + [m] + after);
            m.name in fields && fields[m.name] == Decode(m.value)
    decreases |after|
  {
    var all := before + [m] + after;
    if after == [] {
      assert all == before + [m];
    } else {
      var n := |after| - 1;
      assert all[..|all| - 1] == before + [m] + after[..n];
      LastMemberWins(before, m, after[..n]);
    }
  }

  lemma {:induction false} NamesDecoded(members: seq<RawMember>)
    ensures forall k :: k in DecodeMembers(members) <==> exists i | 0 <= i < |members| :: members[i].name == k
  {
    if members != [] {
      var n := |members| - 1;
      NamesDecoded(members[..n]);
      assert members == members[..n] + [members[n]];
      forall k ensures k in DecodeMembers(members) <==> exists i | 0 <= i < |members| :: members[i].name == k {
        if k in DecodeMembers(members[..n]) {
          var i :| 0 <= i < n && members[..n][i].name == k;
          assert members[i].name == k;
        }
      }
    }
  }

  // ---------- encoding ----------

  lemma {:induction false} LeastKey(keys: set<string>) returns (least: string)
    requires keys != {}
    ensures least in keys && forall k | k in keys && k != least :: Less(least, k)
  {
    least :| least in keys;
    if keys != {least} {
      var rest := LeastKey(keys - {least});
      LessTotal(least, rest);
      if Less(rest, least) {
        least := rest;
      } else {
        forall k | k in keys && k != least ensures Less(least, k) {
          if k != rest { LessTransitive(least, rest, k); }
        }
      }
    }
  }

  predicate IsLeast(k: string, keys: set<string>) { k in keys && forall j | j in keys && j != k :: Less(k, j) }

  lemma LeastIsUnique(keys: set<string>, a: string, b: string)
    requires IsLeast(a, keys) && IsLeast(b, keys)
    ensures a == b
  {
    LessTotal(a, b);
  }

  /** The keys of an object in the order `json.Marshal` writes them. */
  function SortedKeys(keys: set<string>): (sorted: seq<string>)
    ensures Ascending(sorted)
    ensures forall k :: k in sorted <==> k in keys
  {
    if keys == {} then []
    else
      assert exists k :: IsLeast(k, keys) by {
        var k := LeastKey(keys);
        assert IsLeast(k, keys);
      }
      assert forall a, b | IsLeast(a, keys) && IsLeast(b, keys) :: a == b by {
        forall a, b | IsLeast(a, keys) && IsLeast(b, keys) ensures a == b { LeastIsUnique(keys, a, b); }
      }
      var least :| least in keys && IsLeast(least, keys);
      [least] + SortedKeys(keys - {least})
  }

  function Encode(j: Json): Raw {
    match j
    case Null => RawNull
    case Bool(b) => RawBool(b)
    case Number(n) => RawNumber(n)
    case Text(t) => RawText(t)
    case Array(items) => RawArray(seq(|items|, i requires 0 <= i < |items| => Encode(items[i])))
    case Object(fields) =>
      var keys := SortedKeys(fields.Keys);
      RawObject(seq(|keys|, i requires 0 <= i < |keys| => RawMember(keys[i], Encode(fields[keys[i]]))))
  }

  lemma {:induction false} DecodeMembersPointwise(members: seq<RawMember>, names: seq<string>)
    requires |members| == |names| && forall i | 0 <= i < |names| :: members[i].name == names[i]
    requires Ascending(names)
    ensures forall k :: k in DecodeMembers(members) <==> k in names
    ensures forall i | 0 <= i < |names| :: DecodeMembers(members)[names[i]] == Decode(members[i].value)
  {
    if members != [] {
      var n := |members| - 1;
      DecodeMembersPointwise(members[..n], names[..n]);
      assert names == names[..n] + [names[n]];
      forall i | 0 <= i < n ensures names[i] != names[n] { LessTotal(names[i], names[n]); }
      assert forall i | 0 <= i < n :: names[..n][i] == names[i];
    }
  }

  /** Members written in key order decode to the object they were taken from. */
  lemma DecodeSorted(members: seq<RawMember>, names: seq<string>, fields: map<string, Json>)
    requires Ascending(names) && |members| == |names| && forall k :: k in names <==> k in fields
    requires forall i | 0 <= i < |names| :: members[i].name == names[i] && Decode(members[i].value) == fields[names[i]]
    ensures DecodeMembers(members) == fields
  {
    DecodeMembersPointwise(members, names);
    forall k | k in fields ensures DecodeMembers(members)[k] == fields[k] {
      var i :| 0 <= i < |names| && names[i] == k;
    }
  }

  /** Decoding what was encoded gives the value back. */
  lemma {:induction false} DecodeEncode(j: Json)
    ensures Decode(Encode(j)) == j
  {
    match j
    case Array(items) =>
      forall i | 0 <= i < |items| ensures Decode(Encode(items[i])) == items[i] { DecodeEncode(items[i]); }
    case Object(fields) =>
      var keys, members := SortedKeys(fields.Keys), Encode(j).members;
      forall i | 0 <= i < |keys|
        ensures keys[i] in fields && members[i].name == keys[i] && Decode(members[i].value) == fields[keys[i]]
      {
        assert keys[i] in keys;
        DecodeEncode(fields[keys[i]]);
      }
      DecodeSorted(members, keys, fields);
    case _ =>
  }
}
