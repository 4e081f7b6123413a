/** A stable insertion sort with a caller-supplied strict order, and why its result is determined. */
module Sorting {
  import opened Base
  import opened Text

  ghost predicate StrictWeakOrder<T(!new)>(before: (T, T) -> bool) {
    && (forall x :: !before(x, x))
    && (forall x, y :: before(x, y) ==> !before(y, x))
    && (forall x, y, z :: !before(y, x) && !before(z, y) ==> !before(z, x))
  }

  ghost predicate Sorted<T>(before: (T, T) -> bool, s: seq<T>) {
    forall i, j :: 0 <= i < j < |s| ==> !before(s[j], s[i])
  }

  /** Places `x` after every entry that is not later than it. */
  function Insert<T(!new)>(before: (T, T) -> bool, x: T, s: seq<T>): (r: seq<T>)
    ensures multiset(r) == multiset(s) + multiset{x}
  {
    if s == [] then [x]
    else
      assert s == [s[0]] + s[1..];
      if before(x, s[0]) then [x] + s else [s[0]] + Insert(before, x, s[1..])
  }

  function Sort<T(!new)>(before: (T, T) -> bool, s: seq<T>): (r: seq<T>)
    ensures multiset(r) == multiset(s)
  {
    if s == [] then []
    else
      assert s == s[..|s| - 1] + [s[|s| - 1]];
      Insert(before, s[|s| - 1], Sort(before, s[..|s| - 1]))
  }

  lemma {:induction false} InsertSorted<T(!new)>(before: (T, T) -> bool, x: T, s: seq<T>)
    requires StrictWeakOrder(before) && Sorted(before, s)
    ensures Sorted(before, Insert(before, x, s))
  {
    if s != [] && !before(x, s[0]) {
      var rest := Insert(before, x, s[1..]);
      InsertSorted(before, x, s[1..]);
      forall j | 0 <= j < |rest| ensures !before(rest[j], s[0]) {
        assert rest[j] in multiset(rest);
        if rest[j] != x {
          assert rest[j] in multiset(s[1..]) && rest[j] in s[1..];
        }
      }
    }
  }

  lemma {:induction false} SortSorted<T(!new)>(before: (T, T) -> bool, s: seq<T>)
    requires StrictWeakOrder(before)
    ensures Sorted(before, Sort(before, s))
  {
    if s != [] {
      SortSorted(before, s[..|s| - 1]);
      InsertSorted(before, s[|s| - 1], Sort(before, s[..|s| - 1]));
    }
  }

  lemma SortMembers<T(!new)>(before: (T, T) -> bool, s: seq<T>)
    ensures forall x :: x in Sort(before, s) <==> x in s
    ensures |Sort(before, s)| == |s|
  {
    assert forall x :: x in s <==> x in multiset(s);
    assert |multiset(Sort(before, s))| == |multiset(s)|;
    assert forall x :: x in Sort(before, s) <==> x in multiset(Sort(before, s));
  }

  lemma Twice<T>(s: seq<T>, i: nat, j: nat)
    requires i < j < |s| && s[i] == s[j]
    ensures multiset(s)[s[i]] >= 2
  {
    assert s == s[..j] + s[j..];
    assert s[i] in s[..j] && s[j] in s[j..];
    assert s[i] in multiset(s[..j]) && s[i] in multiset(s[j..]);
  }

  lemma SortKeepsDistinct<K, T(!new)>(before: (T, T) -> bool, key: T -> K, s: seq<T>, i: nat, j: nat)
    requires DistinctKeys(key, s) && i < j < |Sort(before, s)|
    ensures key(Sort(before, s)[i]) != key(Sort(before, s)[j])
  {
    var sorted := Sort(before, s);
    SortMembers(before, s);
    var x, y := sorted[i], sorted[j];
    assert x in sorted && y in sorted;
    if key(x) == key(y) {
      SameKey(key, s, x, y);
      Twice(sorted, i, j);
      OnceEach(key, s, x);
    }
  }

  lemma {:induction false} OnceEach<K, T(!new)>(key: T -> K, s: seq<T>, x: T)
    requires DistinctKeys(key, s)
    ensures multiset(s)[x] <= 1
  {
    if s != [] {
      assert s == [s[0]] + s[1..];
      OnceEach(key, s[1..], x);
      assert x in s[1..] <==> x in multiset(s[1..]);
    }
  }

  /** Two strictly ascending lists with the same entries are the same list. */
  lemma {:induction false} AscendingUnique<T(!new)>(before: (T, T) -> bool, a: seq<T>, b: seq<T>)
    requires StrictWeakOrder(before) && Ascending(before, a) && Ascending(before, b)
    requires forall x :: x in a <==> x in b
    ensures a == b
  {
    SameMembersEmpty(a, b);
    if a != [] {
      assert a[0] in b;
      assert b[0] in a;
      var i :| 0 <= i < |b| && b[i] == a[0];
      var j :| 0 <= j < |a| && a[j] == b[0];
      assert a[0] == b[0];
      forall x ensures x in a[1..] <==> x in b[1..] {
        assert x in a <==> x == a[0] || x in a[1..];
        assert x in b <==> x == b[0] || x in b[1..];
        if x in a[1..] {
          var k :| 1 <= k < |a| && a[k] == x;
        }
        if x in b[1..] {
          var k :| 1 <= k < |b| && b[k] == x;
        }
      }
      AscendingUnique(before, a[1..], b[1..]);
    }
  }

  ghost predicate Ascending<T>(before: (T, T) -> bool, s: seq<T>) {
    forall i, j :: 0 <= i < j < |s| ==> before(s[i], s[j])
  }

  lemma LessIsStrictWeak()
    ensures StrictWeakOrder(Less)
  {
    forall x: string ensures !Less(x, x) {
      LessIrreflexive(x);
    }
    forall x: string, y: string | Less(x, y) ensures !Less(y, x) {
      if Less(y, x) {
        LessTransitive(x, y, x);
        LessIrreflexive(x);
      }
    }
    forall x: string, y: string, z: string | !Less(y, x) && !Less(z, y) ensures !Less(z, x) {
      LessTotal(x, y);
      LessTotal(y, z);
      if x != y && y != z {
        LessTransitive(x, y, z);
        if Less(z, x) {
          LessTransitive(x, z, x);
          LessIrreflexive(x);
        }
      }
    }
  }
}
