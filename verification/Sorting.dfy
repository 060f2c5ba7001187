/** Sorting by a text key. With distinct keys the sorted order is unique, whatever algorithm finds it. */
module Sorting {
  import opened Texts

  function Mapped<A, B>(s: seq<A>, f: A -> B): seq<B> { seq(|s|, i requires 0 <= i < |s| => f(s[i])) }

  function Insert<T>(x: T, s: seq<T>, key: T -> string): seq<T> {
    if s == [] then [x]
    else if Less(key(x), key(s[0])) then [x] + s
    else [s[0]] + Insert(x, s[1..], key)
  }

  function Sorted<T>(s: seq<T>, key: T -> string): seq<T> { if s == [] then [] else Insert(s[0], Sorted(s[1..], key), key) }

  ghost predicate Pairwise<T>(s: seq<T>, r: (T, T) -> bool) { forall i, j | 0 <= i < j < |s| :: r(s[i], s[j]) }

  ghost predicate DistinctKeys<T>(s: seq<T>, key: T -> string) { Pairwise(s, (x, y) => key(x) != key(y)) }

  lemma {:induction false} InsertPermutes<T>(x: T, s: seq<T>, key: T -> string)
    ensures multiset(Insert(x, s, key)) == multiset(s) + multiset{x}
  {
    if s != [] {
      assert s == [s[0]] + s[1..];
      if !Less(key(x), key(s[0])) { InsertPermutes(x, s[1..], key); }
    }
  }

  lemma {:induction false} SortedPermutes<T>(s: seq<T>, key: T -> string)
    ensures multiset(Sorted(s, key)) == multiset(s)
  {
    if s != [] {
      SortedPermutes(s[1..], key);
      InsertPermutes(s[0], Sorted(s[1..], key), key);
      assert s == [s[0]] + s[1..];
    }
  }

  /** Strictly increasing keys. */
  ghost predicate Ascends<T>(s: seq<T>, key: T -> string) { Pairwise(s, (x, y) => Less(key(x), key(y))) }

  lemma Prepended<T>(x: T, t: seq<T>, key: T -> string)
    requires Ascends(t, key) && forall y | y in t :: Less(key(x), key(y))
    ensures Ascends([x] + t, key)
  {}

  lemma TailAscends<T>(s: seq<T>, key: T -> string)
    requires Ascends(s, key) && s != []
    ensures Ascends(s[1..], key) && forall y | y in s[1..] :: Less(key(s[0]), key(y))
  {}

  lemma {:induction false} InsertAscends<T>(x: T, s: seq<T>, key: T -> string)
    requires Ascends(s, key) && forall y | y in s :: key(y) != key(x)
    ensures Ascends(Insert(x, s, key), key)
  {
    if s != [] {
      TailAscends(s, key);
      LessTotal(key(x), key(s[0]));
      if Less(key(x), key(s[0])) {
        forall y | y in s ensures Less(key(x), key(y)) {
          if y != s[0] {
            assert y in s[1..];
            LessTransitive(key(x), key(s[0]), key(y));
          }
        }
        Prepended(x, s, key);
      } else {
        InsertAscends(x, s[1..], key);
        InsertPermutes(x, s[1..], key);
        forall y | y in Insert(x, s[1..], key) ensures Less(key(s[0]), key(y)) {
          assert y in multiset(Insert(x, s[1..], key));
          assert y == x || y in s[1..];
        }
        Prepended(s[0], Insert(x, s[1..], key), key);
      }
    }
  }

  lemma {:induction false} SortedAscends<T>(s: seq<T>, key: T -> string)
    requires DistinctKeys(s, key)
    ensures Ascends(Sorted(s, key), key)
  {
    if s != [] {
      SortedAscends(s[1..], key);
      SortedPermutes(s[1..], key);
      forall y | y in Sorted(s[1..], key) ensures key(y) != key(s[0]) {
        assert y in multiset(Sorted(s[1..], key));
        assert y in s[1..];
      }
      InsertAscends(s[0], Sorted(s[1..], key), key);
    }
  }

  /** Two ascending listings of the same elements are the same. */
  lemma AscendingListingUnique<T>(a: seq<T>, b: seq<T>, key: T -> string)
    requires Ascends(a, key) && Ascends(b, key) && multiset(a) == multiset(b)
    ensures a == b
  {
    assert Ascending(Mapped(a, key)) && Ascending(Mapped(b, key));
    SameKeys(a, b, key);
    SameKeys(b, a, key);
    AscendingUnique(Mapped(a, key), Mapped(b, key));
    assert |a| == |Mapped(a, key)| == |Mapped(b, key)| == |b|;
    forall i | 0 <= i < |a| ensures a[i] == b[i] {
      assert a[i] in multiset(a);
      assert a[i] in b;
      var j :| 0 <= j < |b| && b[j] == a[i];
      assert Mapped(b, key)[j] == Mapped(a, key)[i] == Mapped(b, key)[i];
      LessTotal(Mapped(b, key)[i], Mapped(b, key)[j]);
    }
  }

  lemma SameKeys<T>(a: seq<T>, b: seq<T>, key: T -> string)
    requires multiset(a) == multiset(b)
    ensures forall k :: k in Mapped(a, key) ==> k in Mapped(b, key)
  {
    forall k | k in Mapped(a, key) ensures k in Mapped(b, key) {
      var i :| 0 <= i < |a| && Mapped(a, key)[i] == k;
      assert a[i] in multiset(a);
      assert a[i] in b;
      var j :| 0 <= j < |b| && b[j] == a[i];
      assert Mapped(b, key)[j] == k;
    }
  }

  /** Any algorithm that sorts distinct keys finds `Sorted`. */
  lemma AnySortIsSorted<T>(s: seq<T>, t: seq<T>, key: T -> string)
    requires DistinctKeys(s, key) && multiset(t) == multiset(s) && Ascends(t, key)
    ensures t == Sorted(s, key)
  {
    SortedPermutes(s, key);
    SortedAscends(s, key);
    AscendingListingUnique(t, Sorted(s, key), key);
  }

  // ---------- permutations ----------

  lemma WithoutOne<T>(s: seq<T>, p: nat)
    requires p < |s|
    ensures multiset(s[..p] + s[p + 1..]) == multiset(s) - multiset{s[p]}
  {
    assert s == s[..p] + [s[p]] + s[p + 1..];
  }

  /** Two elements counted apart sit at two places. */
  lemma TwoPlaces<T>(s: seq<T>, x: T, y: T) returns (p: nat, q: nat)
    requires multiset{x, y} <= multiset(s)
    ensures p < |s| && q < |s| && p != q && s[p] == x && s[q] == y
  {
    assert multiset(s)[x] >= multiset{x, y}[x] >= 1;
    assert x in s;
    p :| 0 <= p < |s| && s[p] == x;
    var rest := s[..p] + s[p + 1..];
    WithoutOne(s, p);
    assert multiset(rest)[y] >= 1;
    assert y in rest;
    var r: nat :| r < |rest| && rest[r] == y;
    q := if r < p then r else r + 1;
  }

  lemma PairwisePermuted<T>(a: seq<T>, b: seq<T>, r: (T, T) -> bool)
    requires Pairwise(a, r) && multiset(a) == multiset(b) && forall x, y | x in a && y in a :: r(x, y) == r(y, x)
    ensures Pairwise(b, r)
  {
    forall i, j | 0 <= i < j < |b| ensures r(b[i], b[j]) {
      assert b == b[..i] + [b[i]] + b[i + 1..j] + [b[j]] + b[j + 1..];
      assert multiset{b[i], b[j]} <= multiset(b);
      var p, q := TwoPlaces(a, b[i], b[j]);
      assert p < q ==> r(a[p], a[q]);
      assert q < p ==> r(a[q], a[p]);
    }
  }

  lemma MappedJoin<A, B>(a: seq<A>, b: seq<A>, f: A -> B)
    ensures Mapped(a + b, f) == Mapped(a, f) + Mapped(b, f)
  {}

  lemma MappedWithoutOne<A, B>(s: seq<A>, p: nat, f: A -> B)
    requires p < |s|
    ensures multiset(Mapped(s, f)) == multiset(Mapped(s[..p] + s[p + 1..], f)) + multiset{f(s[p])}
  {
    assert s == s[..p] + ([s[p]] + s[p + 1..]);
    MappedJoin(s[..p], [s[p]] + s[p + 1..], f);
    MappedJoin([s[p]], s[p + 1..], f);
    MappedJoin(s[..p], s[p + 1..], f);
    assert Mapped([s[p]], f) == [f(s[p])];
  }

  lemma {:induction false} MappedPermuted<A, B>(a: seq<A>, b: seq<A>, f: A -> B)
    requires multiset(a) == multiset(b)
    ensures multiset(Mapped(a, f)) == multiset(Mapped(b, f))
    decreases |a|
  {
    if a == [] {
      assert |multiset(b)| == |b|;
      assert Mapped(a, f) == Mapped(b, f);
    } else {
      assert a[0] in multiset(a);
      assert a[0] in b;
      var p: nat :| p < |b| && b[p] == a[0];
      WithoutOne(a, 0);
      WithoutOne(b, p);
      MappedWithoutOne(a, 0, f);
      MappedWithoutOne(b, p, f);
      MappedPermuted(a[..0] + a[1..], b[..p] + b[p + 1..], f);
    }
  }
}
