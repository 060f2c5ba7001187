/**
 The string primitives the domain code leans on. A string is a sequence of Unicode code
 points; Go's byte-wise comparison of UTF-8 text is the code-point order used here.
 */
module Texts {

  /** `unicode.IsSpace`. */
  predicate IsSpace(c: char) {
    || '\t' <= c <= '\r' || c == ' ' || c == '\U{85}' || c == '\U{A0}' || c == '\U{1680}'
    || '\U{2000}' <= c <= '\U{200A}' || c == '\U{2028}' || c == '\U{2029}' || c == '\U{202F}'
    || c == '\U{205F}' || c == '\U{3000}'
  }

  predicate AllSpace(s: string) { forall c | c in s :: IsSpace(c) }

  /** Neither end is a space. */
  predicate Trimmed(s: string) { s == [] || (!IsSpace(s[0]) && !IsSpace(s[|s| - 1])) }

  /** `strings.TrimSpace`, `strings.TrimFunc(s, unicode.IsSpace)`. */
  function Trim(s: string): (r: string)
    ensures Trimmed(r) && |r| <= |s|
    ensures Trimmed(s) ==> r == s
    ensures r == [] <==> AllSpace(s)
  {
    if s == [] then s
    else if IsSpace(s[0]) then
      assert s == [s[0]] + s[1..];
      Trim(s[1..])
    else if IsSpace(s[|s| - 1]) then
      assert s == s[..|s| - 1] + [s[|s| - 1]];
      Trim(s[..|s| - 1])
    else s
  }

  /** `before`, the trimmed text and `after` make up the text. */
  predicate Surrounds(before: string, s: string, after: string) { s == before + Trim(s) + after && AllSpace(before) && AllSpace(after) }

  /** Trimming takes spaces off both ends and nothing else. */
  lemma {:induction false} TrimIsMiddle(s: string) returns (before: string, after: string)
    ensures Surrounds(before, s, after)
    decreases |s|
  {
    before, after := [], [];
    if s != [] && IsSpace(s[0]) {
      before, after := TrimIsMiddle(s[1..]);
      SpaceBefore(s, before, after);
      before := [s[0]] + before;
    } else if s != [] && IsSpace(s[|s| - 1]) {
      before, after := TrimIsMiddle(s[..|s| - 1]);
      SpaceAfter(s, before, after);
      after := after + [s[|s| - 1]];
    }
  }

  lemma SpaceBefore(s: string, before: string, after: string)
    requires s != [] && IsSpace(s[0]) && Surrounds(before, s[1..], after)
    ensures Surrounds([s[0]] + before, s, after)
  {
    assert s == [s[0]] + s[1..];
  }

  lemma SpaceAfter(s: string, before: string, after: string)
    requires s != [] && !IsSpace(s[0]) && IsSpace(s[|s| - 1]) && Surrounds(before, s[..|s| - 1], after)
    ensures Surrounds(before, s, after + [s[|s| - 1]])
  {
    assert s == s[..|s| - 1] + [s[|s| - 1]];
  }

  /** The number of bytes of the UTF-8 encoding, Go's `len`. */
  function Utf8Length(s: string): nat {
    if s == [] then 0
    else (if s[0] < '\U{80}' then 1 else if s[0] < '\U{800}' then 2 else if s[0] < '\U{10000}' then 3 else 4)
         + Utf8Length(s[1..])
  }

  /** As many bytes as characters exactly for ASCII text; never more than four for one. */
  lemma {:induction false} Utf8LengthBounds(s: string)
    ensures |s| <= Utf8Length(s) <= 4 * |s|
    ensures Utf8Length(s) == |s| <==> forall i | 0 <= i < |s| :: s[i] < '\U{80}'
  {
    if s != [] {
      Utf8LengthBounds(s[1..]);
      assert forall i | 1 <= i < |s| :: s[i] == s[1..][i - 1];
    }
  }

  /** `strings.Split` on a one-character separator. */
  function Split(s: string, sep: char): (parts: seq<string>)
    ensures |parts| > 0
    ensures forall p | p in parts :: sep !in p
  {
    if s == [] then [[]]
    else
      var rest := Split(s[1..], sep);
      if s[0] == sep then [[]] + rest else [[s[0]] + rest[0]] + rest[1..]
  }

  /** `strings.Join` on a one-character separator. */
  function Join(parts: seq<string>, sep: char): string {
    if parts == [] then [] else if |parts| == 1 then parts[0] else parts[0] + [sep] + Join(parts[1..], sep)
  }

  /** Splitting undoes joining, and joining undoes splitting. */
  lemma {:induction false} JoinSplit(s: string, sep: char)
    ensures Join(Split(s, sep), sep) == s
  {
    if s != [] {
      JoinSplit(s[1..], sep);
      var rest := Split(s[1..], sep);
      var parts := Split(s, sep);
      if s[0] == sep {
        assert parts[1..] == rest;
      } else {
        assert parts[1..] == rest[1..];
      }
    }
  }

  // ---------- order ----------

  predicate Less(a: string, b: string) {
    b != [] && (a == [] || a[0] < b[0] || (a[0] == b[0] && Less(a[1..], b[1..])))
  }

  /** The first place where two texts differ decides; a text comes after its beginnings. */
  lemma {:induction false} LessMeans(a: string, b: string)
    ensures Less(a, b) <==> exists i: nat :: DecidesAt(a, b, i)
  {
    if b != [] && a != [] {
      assert a == [a[0]] + a[1..] && b == [b[0]] + b[1..];
      if a[0] == b[0] {
        LessMeans(a[1..], b[1..]);
        if Less(a, b) {
          var i: nat :| DecidesAt(a[1..], b[1..], i);
          assert a[..i + 1] == [a[0]] + a[1..][..i] && b[..i + 1] == [b[0]] + b[1..][..i];
          assert DecidesAt(a, b, i + 1);
        }
        if i: nat :| DecidesAt(a, b, i) {
          assert i > 0 && a[1..][..i - 1] == a[..i][1..] && b[1..][..i - 1] == b[..i][1..];
          assert DecidesAt(a[1..], b[1..], i - 1);
        }
      } else if a[0] < b[0] {
        assert DecidesAt(a, b, 0);
      } else {
        forall i: nat ensures !DecidesAt(a, b, i) {
          if 0 < i <= |a| && i < |b| { assert a[..i][0] == a[0] && b[..i][0] == b[0]; }
        }
      }
    } else if b != [] {
      assert DecidesAt(a, b, 0);
    }
  }

  predicate DecidesAt(a: string, b: string, i: nat) {
    i <= |a| && i < |b| && a[..i] == b[..i] && (i == |a| || a[i] < b[i])
  }

  lemma {:induction false} LessTotal(a: string, b: string)
    ensures a == b || Less(a, b) || Less(b, a)
    ensures !(Less(a, b) && Less(b, a)) && !(a == b && Less(a, b))
  {
    if a != [] && b != [] && a[0] == b[0] {
      LessTotal(a[1..], b[1..]);
      assert a == [a[0]] + a[1..] && b == [b[0]] + b[1..];
    }
  }

  lemma {:induction false} LessTransitive(a: string, b: string, c: string)
    requires Less(a, b) && Less(b, c)
    ensures Less(a, c)
  {
    if a != [] && a[0] == b[0] == c[0] {
      LessTransitive(a[1..], b[1..], c[1..]);
    }
  }

  /** `keys` is strictly increasing. */
  predicate Ascending(keys: seq<string>) {
    forall i, j | 0 <= i < j < |keys| :: Less(keys[i], keys[j])
  }

  /** A strictly increasing listing of a set of keys is unique. */
  lemma {:induction false} AscendingUnique(a: seq<string>, b: seq<string>)
    requires Ascending(a) && Ascending(b)
    requires forall k :: k in a <==> k in b
    ensures a == b
  {
    assert b == [] || b[0] in b;
    if a != [] {
      assert a[0] in b && b[0] in a;
      FirstIsLeast(a, b[0]);
      FirstIsLeast(b, a[0]);
      TailKeys(a);
      TailKeys(b);
      AscendingUnique(a[1..], b[1..]);
      assert a == [a[0]] + a[1..] && b == [b[0]] + b[1..];
    }
  }

  lemma FirstIsLeast(a: seq<string>, k: string)
    requires Ascending(a) && k in a
    ensures k == a[0] || (Less(a[0], k) && !Less(k, a[0]))
  {
    var i :| 0 <= i < |a| && a[i] == k;
    LessTotal(a[0], k);
  }

  lemma TailKeys(a: seq<string>)
    requires Ascending(a) && a != []
    ensures forall k :: k in a[1..] <==> k in a && k != a[0]
  {
    forall k | k in a[1..] ensures k != a[0] {
      var i :| 0 <= i < |a| - 1 && a[1..][i] == k;
      LessTotal(a[0], a[i + 1]);
    }
    assert a == [a[0]] + a[1..];
  }
}
