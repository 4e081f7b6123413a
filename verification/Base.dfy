/** Small vocabulary shared by every module: failure values, machine words and filtered sequences. */
module Base {

  datatype Option<+T> = None | Some(value: T)

  datatype Result<+T, +E> = Success(value: T) | Failure(error: E) {
    predicate IsFailure() {
      Failure?
    }

    function PropagateFailure<U>(): Result<U, E>
      requires Failure?
    {
      Failure(error)
    }

    function Extract(): T
      requires Success?
    {
      value
    }
  }

  const U64_MAX: int := 0xFFFF_FFFF_FFFF_FFFF
  const I64_MAX: int := 0x7FFF_FFFF_FFFF_FFFF

  type u64 = x: int | 0 <= x <= U64_MAX

  function Min(a: int, b: int): int {
    if a <= b then a else b
  }

  function Max(a: int, b: int): int {
    if a <= b then b else a
  }

  function OkOr<T, E>(o: Option<T>, error: E): Result<T, E> {
    match o
    case Some(v) => Success(v)
    case None => Failure(error)
  }

  /** The subsequence of elements that satisfy `keep`, in order (`iter().filter().collect()`). */
  function Filter<T(!new)>(keep: T -> bool, s: seq<T>): (r: seq<T>)
    ensures forall x :: x in r <==> x in s && keep(x)
  {
    if s == [] then []
    else
      var rest := Filter(keep, s[1..]);
      assert forall x :: x in s <==> x == s[0] || x in s[1..];
      if keep(s[0]) then [s[0]] + rest else rest
  }

  lemma {:induction false} FilterConcat<T(!new)>(keep: T -> bool, a: seq<T>, b: seq<T>)
    ensures Filter(keep, a + b) == Filter(keep, a) + Filter(keep, b)
  {
    if a == [] {
      assert a + b == b;
    } else {
      assert (a + b)[1..] == a[1..] + b;
      FilterConcat(keep, a[1..], b);
    }
  }

  lemma FilterSingle<T(!new)>(keep: T -> bool, x: T)
    ensures Filter(keep, [x]) == if keep(x) then [x] else []
  {
    assert [x][1..] == [];
  }

  lemma FilterAppend<T(!new)>(keep: T -> bool, a: seq<T>, x: T)
    ensures Filter(keep, a + [x]) == Filter(keep, a) + if keep(x) then [x] else []
  {
    FilterConcat(keep, a, [x]);
    FilterSingle(keep, x);
  }

  ghost predicate Distinct<T>(s: seq<T>) {
    forall i, j :: 0 <= i < j < |s| ==> s[i] != s[j]
  }

  lemma DistinctHead<T>(x: T, rest: seq<T>)
    ensures Distinct([x] + rest) <==> Distinct(rest) && x !in rest
  {
    var s := [x] + rest;
    if Distinct(s) {
      forall i, j | 0 <= i < j < |rest| ensures rest[i] != rest[j] {
        assert rest[i] == s[i + 1] && rest[j] == s[j + 1];
      }
      forall i | 0 <= i < |rest| ensures rest[i] != x {
        assert s[0] == x && s[i + 1] == rest[i];
      }
    }
  }

  lemma {:induction false} FilterDistinct<T(!new)>(keep: T -> bool, s: seq<T>)
    requires Distinct(s)
    ensures Distinct(Filter(keep, s))
  {
    if s != [] {
      FilterDistinct(keep, s[1..]);
      assert s[0] !in s[1..];
    }
  }

  lemma {:induction false} FilterAll<T(!new)>(keep: T -> bool, s: seq<T>)
    requires forall x :: x in s ==> keep(x)
    ensures Filter(keep, s) == s
  {
    if s != [] {
      FilterAll(keep, s[1..]);
    }
  }

  lemma {:induction false} FilterNone<T(!new)>(keep: T -> bool, s: seq<T>)
    requires forall x :: x in s ==> !keep(x)
    ensures Filter(keep, s) == []
  {
    if s != [] {
      FilterNone(keep, s[1..]);
    }
  }

  function ToSet<T(==, !new)>(s: seq<T>): (r: set<T>)
    ensures forall x :: x in r <==> x in s
  {
    set x | x in s
  }

  /** A filtered list without repetition has none, one or several entries exactly as the filtered set does. */
  lemma FilterAsSet<T(!new)>(keep: T -> bool, s: seq<T>, kept: set<T>)
    requires Distinct(s)
    requires forall x :: x in kept <==> x in s && keep(x)
    ensures Filter(keep, s) == [] <==> kept == {}
    ensures |Filter(keep, s)| == 1 ==> kept == {Filter(keep, s)[0]}
    ensures |Filter(keep, s)| > 1 ==> forall x :: kept != {x}
  {
    var f := Filter(keep, s);
    FilterDistinct(keep, s);
    if |f| == 1 {
      assert f == [f[0]];
    } else if |f| > 1 {
      assert f[0] in f && f[1] in f && f[0] != f[1];
    }
  }

  // ---------- indexing a list by a key (`collect::<HashMap<_, _>>`; a later entry replaces an earlier one) ----------

  function IndexBy<K(==), T(!new)>(key: T -> K, s: seq<T>): (m: map<K, T>)
    ensures forall k :: k in m ==> m[k] in s && key(m[k]) == k
    ensures forall x :: x in s ==> key(x) in m
  {
    if s == [] then map[]
    else
      var front, last := s[..|s| - 1], s[|s| - 1];
      assert s == front + [last];
      IndexBy(key, front)[key(last) := last]
  }

  ghost predicate DistinctKeys<K, T>(key: T -> K, s: seq<T>) {
    forall i, j :: 0 <= i < j < |s| ==> key(s[i]) != key(s[j])
  }

  lemma DistinctKeysAppend<K, T(!new)>(key: T -> K, front: seq<T>, last: T)
    ensures DistinctKeys(key, front + [last]) <==>
      DistinctKeys(key, front) && forall x :: x in front ==> key(x) != key(last)
  {
    var s := front + [last];
    if DistinctKeys(key, s) {
      forall i, j | 0 <= i < j < |front| ensures key(front[i]) != key(front[j]) {
        assert front[i] == s[i] && front[j] == s[j];
      }
      forall x | x in front ensures key(x) != key(last) {
        var i :| 0 <= i < |front| && front[i] == x;
        assert s[i] == x && s[|front|] == last;
      }
    }
  }

  lemma {:induction false} IndexBySize<K, T(!new)>(key: T -> K, s: seq<T>)
    ensures |IndexBy(key, s)| <= |s|
    ensures |IndexBy(key, s)| == |s| <==> DistinctKeys(key, s)
  {
    if s != [] {
      var front, last := s[..|s| - 1], s[|s| - 1];
      assert s == front + [last];
      IndexBySize(key, front);
      DistinctKeysAppend(key, front, last);
      var m := IndexBy(key, front);
      if key(last) in m {
        assert m[key(last) := last].Keys == m.Keys;
      } else {
        assert m[key(last) := last].Keys == m.Keys + {key(last)};
      }
    }
  }

  lemma {:induction false} FilterFilter<T(!new)>(p: T -> bool, q: T -> bool, s: seq<T>)
    requires forall x :: x in s && p(x) ==> q(x)
    ensures Filter(p, Filter(q, s)) == Filter(p, s)
  {
    if s != [] {
      assert s[0] in s;
      FilterFilter(p, q, s[1..]);
    }
  }

  lemma {:induction false} FilterSame<T(!new)>(p: T -> bool, q: T -> bool, s: seq<T>)
    requires forall x :: x in s ==> p(x) == q(x)
    ensures Filter(p, s) == Filter(q, s)
  {
    if s != [] {
      FilterSame(p, q, s[1..]);
    }
  }

  lemma {:induction false} FilterCommutes<T(!new)>(p: T -> bool, q: T -> bool, s: seq<T>)
    ensures Filter(p, Filter(q, s)) == Filter(q, Filter(p, s))
  {
    if s != [] {
      FilterCommutes(p, q, s[1..]);
    }
  }

  lemma {:induction false} FilterDistinctKeys<K, T(!new)>(key: T -> K, keep: T -> bool, s: seq<T>)
    requires DistinctKeys(key, s)
    ensures DistinctKeys(key, Filter(keep, s))
  {
    if s != [] {
      var front, last := s[..|s| - 1], s[|s| - 1];
      assert s == front + [last];
      DistinctKeysAppend(key, front, last);
      FilterDistinctKeys(key, keep, front);
      FilterAppend(keep, front, last);
      if keep(last) {
        DistinctKeysAppend(key, Filter(keep, front), last);
      }
    }
  }

  lemma SameKey<K, T>(key: T -> K, s: seq<T>, a: T, b: T)
    requires DistinctKeys(key, s) && a in s && b in s && key(a) == key(b)
    ensures a == b
  {
    var i :| 0 <= i < |s| && s[i] == a;
    var j :| 0 <= j < |s| && s[j] == b;
    assert i == j;
  }

  /** Keeps the first entry for every key (`filter(|x| seen.insert(key(x)))`). */
  function Dedup<K(==), T(!new)>(key: T -> K, s: seq<T>): seq<T> {
    Unseen(key, s, {})
  }

  function Unseen<K(==), T(!new)>(key: T -> K, s: seq<T>, seen: set<K>): (r: seq<T>)
    ensures forall x :: x in r ==> x in s && key(x) !in seen
  {
    if s == [] then []
    else
      assert forall x :: x in s[1..] ==> x in s;
      if key(s[0]) in seen then Unseen(key, s[1..], seen)
      else [s[0]] + Unseen(key, s[1..], seen + {key(s[0])})
  }

  lemma {:induction false} UnseenDistinct<K, T(!new)>(key: T -> K, s: seq<T>, seen: set<K>)
    ensures DistinctKeys(key, Unseen(key, s, seen))
  {
    if s != [] {
      if key(s[0]) in seen {
        UnseenDistinct(key, s[1..], seen);
      } else {
        var rest := Unseen(key, s[1..], seen + {key(s[0])});
        UnseenDistinct(key, s[1..], seen + {key(s[0])});
        assert forall j :: 0 <= j < |rest| ==> rest[j] in rest;
      }
    }
  }

  /** Every key is represented, unless it was seen before. */
  lemma {:induction false} UnseenCovers<K, T(!new)>(key: T -> K, s: seq<T>, seen: set<K>, x: T)
    requires x in s && key(x) !in seen
    ensures exists y :: y in Unseen(key, s, seen) && key(y) == key(x)
  {
    if key(s[0]) == key(x) {
      assert s[0] in Unseen(key, s, seen);
    } else {
      UnseenCovers(key, s[1..], if key(s[0]) in seen then seen else seen + {key(s[0])}, x);
    }
  }

  lemma {:induction false} UnseenAppend<K, T(!new)>(key: T -> K, s: seq<T>, last: T, seen: set<K>)
    ensures Unseen(key, s + [last], seen) ==
      Unseen(key, s, seen) + if key(last) in seen || (exists x :: x in s && key(x) == key(last)) then [] else [last]
  {
    if s == [] {
      assert s + [last] == [last] && [last][1..] == [];
    } else {
      assert s == [s[0]] + s[1..];
      assert (s + [last])[1..] == s[1..] + [last];
      UnseenAppend(key, s[1..], last, if key(s[0]) in seen then seen else seen + {key(s[0])});
    }
  }

  lemma {:induction false} UnseenConcat<K, T(!new)>(key: T -> K, a: seq<T>, b: seq<T>, seen: set<K>, seenAfter: set<K>)
    requires forall k :: k in seenAfter <==> k in seen || exists x :: x in a && key(x) == k
    ensures Unseen(key, a + b, seen) == Unseen(key, a, seen) + Unseen(key, b, seenAfter)
  {
    if a == [] {
      assert a + b == b && seenAfter == seen;
    } else {
      assert a == [a[0]] + a[1..];
      assert (a + b)[1..] == a[1..] + b;
      UnseenConcat(key, a[1..], b, seen + {key(a[0])}, seenAfter);
      if key(a[0]) in seen {
        assert seen + {key(a[0])} == seen;
      }
    }
  }

  lemma {:induction false} UnseenOfDistinct<K, T(!new)>(key: T -> K, s: seq<T>, seen: set<K>)
    requires DistinctKeys(key, s) && forall x :: x in s ==> key(x) !in seen
    ensures Unseen(key, s, seen) == s
  {
    if s != [] {
      assert s[0] in s && forall x :: x in s[1..] ==> x in s;
      UnseenOfDistinct(key, s[1..], seen + {key(s[0])});
    }
  }

  lemma DedupDistinct<K, T(!new)>(key: T -> K, s: seq<T>)
    ensures DistinctKeys(key, Dedup(key, s))
  {
    UnseenDistinct(key, s, {});
  }

  ghost predicate KeyDetermines<K, T(!new)>(key: T -> K, s: seq<T>) {
    forall x, y :: x in s && y in s && key(x) == key(y) ==> x == y
  }

  lemma {:induction false} UnseenKeepsAll<K, T(!new)>(key: T -> K, s: seq<T>, seen: set<K>)
    requires KeyDetermines(key, s)
    ensures forall x :: x in Unseen(key, s, seen) <==> x in s && key(x) !in seen
  {
    if s != [] {
      assert s == [s[0]] + s[1..];
      if key(s[0]) in seen {
        UnseenKeepsAll(key, s[1..], seen);
      } else {
        UnseenKeepsAll(key, s[1..], seen + {key(s[0])});
        assert forall x :: x in s[1..] && key(x) == key(s[0]) ==> x == s[0];
      }
    }
  }

  /** When keys identify entries, nothing but repetition is lost. */
  lemma DedupKeepsAll<K, T(!new)>(key: T -> K, s: seq<T>)
    requires KeyDetermines(key, s)
    ensures forall x :: x in Dedup(key, s) <==> x in s
  {
    UnseenKeepsAll(key, s, {});
  }

  lemma DistinctKeysDetermine<K, T(!new)>(key: T -> K, s: seq<T>)
    requires DistinctKeys(key, s)
    ensures KeyDetermines(key, s)
  {
    forall x, y | x in s && y in s && key(x) == key(y) ensures x == y {
      SameKey(key, s, x, y);
    }
  }

  /** Moving one element from what is left to do to what is done. */
  lemma MoveOne<T>(done: set<T>, todo: set<T>, x: T)
    requires x in todo && done !! todo
    ensures (done + {x}) + (todo - {x}) == done + todo && done + {x} !! todo - {x}
  {
  }

  lemma SameMembersEmpty<T>(a: seq<T>, b: seq<T>)
    requires forall x :: x in a <==> x in b
    ensures a == [] <==> b == []
  {
    if a != [] {
      assert a[0] in b;
    }
    if b != [] {
      assert b[0] in a;
    }
  }
}
