/** Collections as ordered tables, and the query steps the handlers build on them:
    `findOne` (first match in stored order), `find` (filter), `$lookup` by `_id`
    and `$sort`. */
module Tables {
  import opened Base
  import opened Calendar

  /** Position of the first row whose key is `k`: what `findOne`, `updateOne` and `deleteOne` hit. */
  function IndexOf<T, K(==)>(s: seq<T>, key: T -> K, k: K): (r: Option<nat>)
    ensures r.Some? ==> r.value < |s| && key(s[r.value]) == k
    ensures r.Some? ==> forall j :: 0 <= j < r.value ==> key(s[j]) != k
    ensures r.None? <==> forall j :: 0 <= j < |s| ==> key(s[j]) != k
  {
    if s == [] then None
    else if key(s[0]) == k then Some(0)
    else match IndexOf(s[1..], key, k)
      case None => None
      case Some(i) => Some(i + 1)
  }

  /** The first row whose key is `k`, if any. */
  function Lookup<T, K(==)>(s: seq<T>, key: T -> K, k: K): (r: Option<T>)
    ensures r.Some? <==> exists j :: 0 <= j < |s| && key(s[j]) == k
    ensures r.Some? ==> r.value in s && key(r.value) == k
  {
    match IndexOf(s, key, k)
    case None => None
    case Some(i) => Some(s[i])
  }

  /** No two rows share a key (the `_id` index, or a unique index the code relies on). */
  predicate UniqueKeys<T, K(==)>(s: seq<T>, key: T -> K)
  {
    forall i, j :: 0 <= i < j < |s| ==> key(s[i]) != key(s[j])
  }

  predicate KeyAbsent<T, K(==)>(s: seq<T>, key: T -> K, k: K)
  {
    forall j :: 0 <= j < |s| ==> key(s[j]) != k
  }

  /** With unique keys, the row found is the only row with that key. */
  lemma LookupFindsOnly<T, K>(s: seq<T>, key: T -> K, j: nat)
    requires UniqueKeys(s, key) && j < |s|
    ensures IndexOf(s, key, key(s[j])) == Some(j)
  {
  }

  /** Appending a row with a fresh key keeps the keys unique. */
  lemma UniqueAfterAppend<T, K>(s: seq<T>, key: T -> K, x: T)
    requires UniqueKeys(s, key) && KeyAbsent(s, key, key(x))
    ensures UniqueKeys(s + [x], key)
  {
  }

  /** Replacing row `i` by a row with the same key keeps the keys unique. */
  lemma UniqueAfterReplace<T, K>(s: seq<T>, key: T -> K, i: nat, x: T)
    requires UniqueKeys(s, key) && i < |s| && key(x) == key(s[i])
    ensures UniqueKeys(s[i := x], key)
  {
  }

  /** Appending rows whose keys are unique among themselves and fresh keeps the keys unique. */
  lemma UniqueAfterConcat<T, K>(s: seq<T>, t: seq<T>, key: T -> K)
    requires UniqueKeys(s, key) && UniqueKeys(t, key)
    requires forall j :: 0 <= j < |t| ==> KeyAbsent(s, key, key(t[j]))
    ensures UniqueKeys(s + t, key)
  {
    var r := s + t;
    forall a, b | 0 <= a < b < |r| ensures key(r[a]) != key(r[b]) {
      if b < |s| {
        assert r[a] == s[a] && r[b] == s[b];
      } else if a < |s| {
        assert r[a] == s[a] && r[b] == t[b - |s|];
      } else {
        assert r[a] == t[a - |s|] && r[b] == t[b - |s|];
      }
    }
  }

  /** Removing row `i` keeps the keys unique. */
  lemma UniqueAfterRemove<T, K>(s: seq<T>, key: T -> K, i: nat)
    requires UniqueKeys(s, key) && i < |s|
    ensures UniqueKeys(s[..i] + s[i + 1..], key)
  {
    var t := s[..i] + s[i + 1..];
    forall a, b | 0 <= a < b < |t| ensures key(t[a]) != key(t[b]) {
      var a' := if a < i then a else a + 1;
      var b' := if b < i then b else b + 1;
      assert t[a] == s[a'] && t[b] == s[b'];
    }
  }

  /** `updateOne({key: k}, ...)`: the first row with key `k` is replaced by `f` of it;
      with no such row nothing changes. */
  function UpdateFirst<T, K(==)>(s: seq<T>, key: T -> K, k: K, f: T -> T): (r: seq<T>)
    ensures |r| == |s|
    ensures KeyAbsent(s, key, k) ==> r == s
    ensures forall i :: IndexOf(s, key, k) == Some(i) ==> r == s[i := f(s[i])]
  {
    match IndexOf(s, key, k)
    case None => s
    case Some(i) => s[i := f(s[i])]
  }

  /** Under unique keys, the update touches exactly the row with that key. */
  lemma UpdateOnly<T, K>(s: seq<T>, key: T -> K, k: K, f: T -> T)
    requires UniqueKeys(s, key)
    ensures forall j :: 0 <= j < |s| ==> UpdateFirst(s, key, k, f)[j] == if key(s[j]) == k then f(s[j]) else s[j]
  {
    forall j | 0 <= j < |s| && key(s[j]) == k ensures IndexOf(s, key, k) == Some(j) {
      LookupFindsOnly(s, key, j);
    }
  }

  /** An update that keeps each row's key keeps the keys unique. */
  lemma UpdateKeepsUnique<T, K>(s: seq<T>, key: T -> K, k: K, f: T -> T)
    requires UniqueKeys(s, key)
    requires forall j :: 0 <= j < |s| ==> key(f(s[j])) == key(s[j])
    ensures UniqueKeys(UpdateFirst(s, key, k, f), key)
  {
    match IndexOf(s, key, k)
    case None =>
    case Some(i) => UniqueAfterReplace(s, key, i, f(s[i]));
  }

  /** `deleteOne({key: k})`: the first row with key `k` is removed; with no such row nothing changes. */
  function RemoveFirst<T, K(==)>(s: seq<T>, key: T -> K, k: K): (r: seq<T>)
    ensures KeyAbsent(s, key, k) ==> r == s
    ensures !KeyAbsent(s, key, k) ==> |r| == |s| - 1
    ensures forall x :: x in r ==> x in s
  {
    match IndexOf(s, key, k)
    case None => s
    case Some(i) =>
      assert forall x :: x in s[..i] + s[i + 1..] ==> x in s by {
        forall x | x in s[..i] + s[i + 1..] ensures x in s {
          if x in s[..i] {
            var j :| 0 <= j < i && s[..i][j] == x;
            assert s[j] == x;
          } else {
            var j :| 0 <= j < |s[i + 1..]| && s[i + 1..][j] == x;
            assert s[i + 1 + j] == x;
          }
        }
      }
      s[..i] + s[i + 1..]
  }

  /** Under unique keys, the delete removes exactly the row with that key and keeps the keys unique. */
  lemma RemoveOnly<T, K>(s: seq<T>, key: T -> K, k: K)
    requires UniqueKeys(s, key)
    ensures forall x :: x in RemoveFirst(s, key, k) <==> x in s && key(x) != k
    ensures UniqueKeys(RemoveFirst(s, key, k), key)
  {
    match IndexOf(s, key, k)
    case None =>
    case Some(i) =>
      var r := s[..i] + s[i + 1..];
      UniqueAfterRemove(s, key, i);
      forall x | x in s && key(x) != k ensures x in r {
        var j :| 0 <= j < |s| && s[j] == x;
        if j < i {
          assert r[j] == x;
        } else {
          assert j != i;
          assert r[j - 1] == x;
        }
      }
      forall x | x in r ensures key(x) != k {
        var j :| 0 <= j < |r| && r[j] == x;
        if j < i {
          assert r[j] == s[j];
        } else {
          assert r[j] == s[j + 1];
        }
      }
  }

  /** `find(filter)`: the rows that pass, in stored order. */
  function Filter<T(!new)>(s: seq<T>, p: T -> bool): (r: seq<T>)
    ensures |r| <= |s|
    ensures forall x :: x in r <==> x in s && p(x)
  {
    if s == [] then []
    else
      var rest := Filter(s[..|s| - 1], p);
      assert s == s[..|s| - 1] + [s[|s| - 1]];
      if p(s[|s| - 1]) then rest + [s[|s| - 1]] else rest
  }

  /** `find({ field: k })`: the rows whose key is `k`, in stored order. */
  function Where<T(!new), K(==)>(s: seq<T>, key: T -> K, k: K): (r: seq<T>)
    ensures forall x :: x in r <==> x in s && key(x) == k
  {
    Filter(s, (x: T) => key(x) == k)
  }

  /** Filter distributes over concatenation. */
  lemma {:induction false} FilterAppend<T(!new)>(a: seq<T>, b: seq<T>, p: T -> bool)
    ensures Filter(a + b, p) == Filter(a, p) + Filter(b, p)
  {
    if b != [] {
      var b' := b[..|b| - 1];
      assert (a + b)[..|a + b| - 1] == a + b';
      FilterAppend(a, b', p);
    } else {
      assert a + b == a;
    }
  }

  /** A join step: each row passes through `f`, and rows for which `f` yields nothing
      are dropped (a `$lookup` followed by `$unwind` without `preserveNullAndEmptyArrays`). */
  function FilterMap<T(!new), U(!new)>(s: seq<T>, f: T -> Option<U>): (r: seq<U>)
    ensures |r| <= |s|
    ensures forall y :: y in r <==> exists x :: x in s && f(x) == Some(y)
  {
    if s == [] then []
    else
      var rest := FilterMap(s[..|s| - 1], f);
      var x := s[|s| - 1];
      assert s == s[..|s| - 1] + [x];
      match f(x)
      case None => rest
      case Some(y) => rest + [y]
  }

  /** Map every row and keep them all. */
  function Map<T, U>(s: seq<T>, f: T -> U): (r: seq<U>)
    ensures |r| == |s| && forall i :: 0 <= i < |s| ==> r[i] == f(s[i])
  {
    seq(|s|, i requires 0 <= i < |s| => f(s[i]))
  }

  /** Every mapped row is the image of a row, and every row's image is present. */
  lemma MapIn<T, U>(s: seq<T>, f: T -> U)
    ensures forall y :: y in Map(s, f) ==> exists x :: x in s && y == f(x)
    ensures forall x :: x in s ==> f(x) in Map(s, f)
  {
    var r := Map(s, f);
    forall y | y in r ensures exists x :: x in s && y == f(x) {
      var i :| 0 <= i < |r| && r[i] == y;
      assert s[i] in s;
    }
    forall x | x in s ensures f(x) in r {
      var i :| 0 <= i < |s| && s[i] == x;
      assert r[i] == f(x);
    }
  }

  /** Sum of an integer column. */
  function Sum<T>(s: seq<T>, value: T -> int): int
  {
    if s == [] then 0 else Sum(s[..|s| - 1], value) + value(s[|s| - 1])
  }

  lemma {:induction false} SumNonNegative<T>(s: seq<T>, value: T -> int)
    requires forall x :: x in s ==> value(x) >= 0
    ensures Sum(s, value) >= 0
  {
    if s != [] {
      SumNonNegative(s[..|s| - 1], value);
    }
  }

  lemma {:induction false} SumAppend<T>(a: seq<T>, b: seq<T>, value: T -> int)
    ensures Sum(a + b, value) == Sum(a, value) + Sum(b, value)
  {
    if b != [] {
      assert (a + b)[..|a + b| - 1] == a + b[..|b| - 1];
      SumAppend(a, b[..|b| - 1], value);
    } else {
      assert a + b == a;
    }
  }

  /** Summing only the rows that pass a test never gives more than summing them all,
      when every value is non-negative. */
  lemma {:induction false} SumFilterAtMost<T(!new)>(s: seq<T>, value: T -> int, p: T -> bool)
    requires forall x :: x in s ==> value(x) >= 0
    ensures Sum(Filter(s, p), value) <= Sum(s, value)
  {
    if s != [] {
      var init := s[..|s| - 1];
      assert forall x :: x in init ==> x in s;
      SumFilterAtMost(init, value, p);
      assert s == init + [s[|s| - 1]];
      if p(s[|s| - 1]) {
        SumAppend(Filter(init, p), [s[|s| - 1]], value);
      }
    }
  }

  /** When no row passes, the filter is empty. */
  lemma {:induction false} FilterNone<T(!new)>(s: seq<T>, p: T -> bool)
    requires forall x :: x in s ==> !p(x)
    ensures Filter(s, p) == []
  {
    if s != [] {
      assert forall x :: x in s[..|s| - 1] ==> x in s;
      FilterNone(s[..|s| - 1], p);
      assert s[|s| - 1] in s;
    }
  }

  /** One unfolding step of a filter. */
  lemma FilterSnoc<T(!new)>(s: seq<T>, p: T -> bool)
    requires s != []
    ensures Filter(s, p) == Filter(s[..|s| - 1], p) + (if p(s[|s| - 1]) then [s[|s| - 1]] else [])
  {
  }

  /** The first row of a filter of a filter is the first row of the table, in stored
      order, that passes both. */
  lemma FilterFilterFirst<T(!new)>(s: seq<T>, p: T -> bool, q: T -> bool)
    requires Filter(Filter(s, p), q) != []
    ensures exists i :: 0 <= i < |s| && s[i] == Filter(Filter(s, p), q)[0] && p(s[i]) && q(s[i])
                        && forall j :: 0 <= j < i ==> !(p(s[j]) && q(s[j]))
  {
    var both := (x: T) => p(x) && q(x);
    FilterFilterIsFilter(s, p, q, both);
    FilterFirst(s, both);
  }

  /** Filtering by `p` and then by `q` is filtering by their conjunction. */
  lemma {:induction false} FilterFilterIsFilter<T(!new)>(s: seq<T>, p: T -> bool, q: T -> bool, both: T -> bool)
    requires forall x :: both(x) == (p(x) && q(x))
    ensures Filter(Filter(s, p), q) == Filter(s, both)
  {
    if s != [] {
      FilterFilterSnoc(s, p, q);
      FilterSnoc(s, both);
      FilterFilterIsFilter(s[..|s| - 1], p, q, both);
    }
  }

  /** The first row of a filter is the first row of the table, in stored order, that passes. */
  lemma {:induction false} FilterFirst<T(!new)>(s: seq<T>, p: T -> bool)
    requires Filter(s, p) != []
    ensures exists i :: 0 <= i < |s| && s[i] == Filter(s, p)[0] && p(s[i]) && forall j :: 0 <= j < i ==> !p(s[j])
  {
    var init := s[..|s| - 1];
    FilterSnoc(s, p);
    if Filter(init, p) != [] {
      FilterFirst(init, p);
      var i :| 0 <= i < |init| && init[i] == Filter(init, p)[0] && p(init[i]) && forall j :: 0 <= j < i ==> !p(init[j]);
      assert s[i] == init[i];
      assert forall j :: 0 <= j < i ==> s[j] == init[j];
    } else {
      assert forall j :: 0 <= j < |s| - 1 ==> s[j] == init[j] && init[j] in init;
    }
  }

  /** One unfolding step of a filter of a filter. */
  lemma FilterFilterSnoc<T(!new)>(s: seq<T>, p: T -> bool, q: T -> bool)
    requires s != []
    ensures var last := s[|s| - 1];
      Filter(Filter(s, p), q) == Filter(Filter(s[..|s| - 1], p), q) + (if p(last) && q(last) then [last] else [])
  {
    var last := s[|s| - 1];
    var tail := if p(last) then [last] else [];
    FilterSnoc(s, p);
    FilterAppend(Filter(s[..|s| - 1], p), tail, q);
    if p(last) {
      FilterSnoc(tail, q);
    }
  }

  /** If every row that passes `p` also passes `q`, the `p`-sum is at most the `q`-sum
      (non-negative values). */
  lemma {:induction false} SumFilterMonotone<T(!new)>(s: seq<T>, value: T -> int, p: T -> bool, q: T -> bool)
    requires forall x :: x in s ==> value(x) >= 0
    requires forall x :: x in s && p(x) ==> q(x)
    ensures Sum(Filter(s, p), value) <= Sum(Filter(s, q), value)
  {
    if s != [] {
      var init := s[..|s| - 1];
      var last := s[|s| - 1];
      assert forall x :: x in init ==> x in s;
      SumFilterMonotone(init, value, p, q);
      assert s == init + [last];
      if p(last) {
        SumAppend(Filter(init, p), [last], value);
        SumAppend(Filter(init, q), [last], value);
      } else if q(last) {
        SumAppend(Filter(init, q), [last], value);
      }
    }
  }

  /** Filtering with a test that every row passes keeps every row. */
  lemma {:induction false} FilterAll<T(!new)>(s: seq<T>, p: T -> bool)
    requires forall x :: x in s ==> p(x)
    ensures Filter(s, p) == s
  {
    if s != [] {
      var init := s[..|s| - 1];
      assert forall x :: x in init ==> x in s;
      FilterAll(init, p);
      assert s == init + [s[|s| - 1]];
      assert p(s[|s| - 1]);
      assert Filter(s, p) == Filter(init, p) + [s[|s| - 1]];
    }
  }

  // ---- $sort on a date key ----

  /** Whether date `a` may come before date `b` in a listing sorted ascending or newest first. */
  predicate Precedes(a: Date, b: Date, newestFirst: bool)
  {
    if newestFirst then AtOrBefore(b, a) else AtOrBefore(a, b)
  }

  predicate SortedBy<T>(s: seq<T>, key: T -> Date, newestFirst: bool)
  {
    forall i, j :: 0 <= i < j < |s| ==> Precedes(key(s[i]), key(s[j]), newestFirst)
  }

  lemma PrecedesTotal(a: Date, b: Date, newestFirst: bool)
    ensures Precedes(a, b, newestFirst) || Precedes(b, a, newestFirst)
  {
  }

  /** Putting in front of a sorted listing a row that may precede all of its rows keeps it sorted. */
  lemma SortedCons<T>(y: T, s: seq<T>, key: T -> Date, newestFirst: bool)
    requires SortedBy(s, key, newestFirst)
    requires forall z :: z in s ==> Precedes(key(y), key(z), newestFirst)
    ensures SortedBy([y] + s, key, newestFirst)
  {
    var r := [y] + s;
    forall i, j | 0 <= i < j < |r| ensures Precedes(key(r[i]), key(r[j]), newestFirst) {
      assert r[j] == s[j - 1];
      if i == 0 {
        assert s[j - 1] in s;
      } else {
        assert r[i] == s[i - 1];
      }
    }
  }

  /** The head of a sorted listing may precede every row of that listing. */
  lemma HeadPrecedes<T>(s: seq<T>, key: T -> Date, newestFirst: bool, z: T)
    requires SortedBy(s, key, newestFirst) && |s| > 0 && z in s
    ensures Precedes(key(s[0]), key(z), newestFirst)
  {
    var j :| 0 <= j < |s| && s[j] == z;
    if j == 0 {
    }
  }

  /** Insert `x` into a sorted listing, in front of the first row it may precede. */
  function InsertByDate<T>(x: T, s: seq<T>, key: T -> Date, newestFirst: bool): (r: seq<T>)
    requires SortedBy(s, key, newestFirst)
    ensures multiset(r) == multiset(s) + multiset{x}
    ensures SortedBy(r, key, newestFirst)
  {
    if s == [] then [x]
    else if Precedes(key(x), key(s[0]), newestFirst) then
      SortedCons(x, s, key, newestFirst);
      [x] + s
    else
      var rest := InsertByDate(x, s[1..], key, newestFirst);
      assert s == [s[0]] + s[1..];
      PrecedesTotal(key(x), key(s[0]), newestFirst);
      assert forall z :: z in rest ==> Precedes(key(s[0]), key(z), newestFirst) by {
        forall z | z in rest ensures Precedes(key(s[0]), key(z), newestFirst) {
          assert z in multiset(rest);
          if z != x {
            assert z in s[1..];
            HeadPrecedes(s, key, newestFirst, z);
          }
        }
      }
      SortedCons(s[0], rest, key, newestFirst);
      [s[0]] + rest
  }

  /** `$sort` on a date key: a sorted permutation of the rows (the order among rows
      with equal keys is not fixed by MongoDB, and this is one admissible order). */
  function SortByDate<T>(s: seq<T>, key: T -> Date, newestFirst: bool): (r: seq<T>)
    ensures multiset(r) == multiset(s)
    ensures SortedBy(r, key, newestFirst)
  {
    if s == [] then []
    else
      assert s == s[..|s| - 1] + [s[|s| - 1]];
      InsertByDate(s[|s| - 1], SortByDate(s[..|s| - 1], key, newestFirst), key, newestFirst)
  }
}
