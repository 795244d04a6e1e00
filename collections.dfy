/** The Kotlin collection operations the app uses on lists: `filter`, `sumOf`,
    `count`, `distinctBy`, `sortedBy`, `take`. A list is a Dafny sequence. */
module Collections {

  // ---------------------------------------------------------------- filter, sum, count

  /** Kotlin `s.filter(p)`. */
  function Filter<T>(s: seq<T>, p: T -> bool): (r: seq<T>)
    ensures |r| <= |s|
    ensures forall i :: 0 <= i < |r| ==> p(r[i]) && r[i] in s
  {
    if |s| == 0 then []
    else
      var init := s[..|s| - 1];
      var last := s[|s| - 1];
      if p(last) then Filter(init, p) + [last] else Filter(init, p)
  }

  /** `Filter` keeps exactly the elements that satisfy `p`, with their multiplicity. */
  lemma {:induction false} FilterMultiset<T>(s: seq<T>, p: T -> bool, x: T)
    ensures multiset(Filter(s, p))[x] == if p(x) then multiset(s)[x] else 0
  {
    if |s| > 0 {
      var init := s[..|s| - 1];
      FilterMultiset(init, p, x);
      assert s == init + [s[|s| - 1]];
    }
  }

  lemma FilterContains<T>(s: seq<T>, p: T -> bool, x: T)
    requires x in s && p(x)
    ensures x in Filter(s, p)
  {
    FilterMultiset(s, p, x);
  }

  /** `Filter` keeps the relative order: filtering a concatenation is concatenating
      the filtered parts. */
  lemma {:induction false} FilterAppend<T>(a: seq<T>, b: seq<T>, p: T -> bool)
    ensures Filter(a + b, p) == Filter(a, p) + Filter(b, p)
  {
    if |b| == 0 {
      assert a + b == a;
    } else {
      FilterAppend(a, b[..|b| - 1], p);
      assert (a + b)[..|a + b| - 1] == a + b[..|b| - 1];
    }
  }

  /** `Filter` keeps keys pairwise distinct. */
  lemma {:induction false} FilterDistinctKeys<T, K>(s: seq<T>, p: T -> bool, key: T -> K)
    requires forall i, j :: 0 <= i < j < |s| ==> key(s[i]) != key(s[j])
    ensures forall i, j :: 0 <= i < j < |Filter(s, p)| ==> key(Filter(s, p)[i]) != key(Filter(s, p)[j])
  {
    if |s| > 0 {
      var init := s[..|s| - 1];
      var last := s[|s| - 1];
      FilterDistinctKeys(init, p, key);
      var f := Filter(init, p);
      forall i | 0 <= i < |f| ensures key(f[i]) != key(last) {
        var k :| 0 <= k < |init| && init[k] == f[i];
        assert s[k] == f[i];
      }
    }
  }

  /** Kotlin `s.sumOf(f)`. */
  function SumOf<T>(s: seq<T>, f: T -> int): int
  {
    if |s| == 0 then 0 else SumOf(s[..|s| - 1], f) + f(s[|s| - 1])
  }

  lemma {:induction false} SumOfAppend<T>(a: seq<T>, b: seq<T>, f: T -> int)
    ensures SumOf(a + b, f) == SumOf(a, f) + SumOf(b, f)
  {
    if |b| > 0 {
      SumOfAppend(a, b[..|b| - 1], f);
      assert (a + b)[..|a + b| - 1] == a + b[..|b| - 1];
    } else {
      assert a + b == a;
    }
  }

  /** Bounds of a sum from bounds of its terms. */
  lemma {:induction false} SumOfBounds<T>(s: seq<T>, f: T -> int, lo: int, hi: int)
    requires forall i :: 0 <= i < |s| ==> lo <= f(s[i]) <= hi
    ensures |s| * lo <= SumOf(s, f) <= |s| * hi
  {
    if |s| > 0 {
      SumOfBounds(s[..|s| - 1], f, lo, hi);
      assert f(s[|s| - 1]) <= hi;
    }
  }

  /** Kotlin `s.count(p)`. */
  function CountOf<T>(s: seq<T>, p: T -> bool): (n: nat)
    ensures n <= |s|
  {
    |Filter(s, p)|
  }

  /** Every element passes exactly when all are counted; none passes exactly when
      none is. */
  lemma {:induction false} CountOfExtremes<T>(s: seq<T>, p: T -> bool)
    ensures CountOf(s, p) == |s| <==> forall i :: 0 <= i < |s| ==> p(s[i])
    ensures CountOf(s, p) == 0 <==> forall i :: 0 <= i < |s| ==> !p(s[i])
  {
    if |s| > 0 {
      var init := s[..|s| - 1];
      CountOfExtremes(init, p);
      assert forall i :: 0 <= i < |init| ==> init[i] == s[i];
      if CountOf(s, p) == 0 {
        assert !p(s[|s| - 1]);
      }
    }
  }

  /** Kotlin `s.take(n)` and SQL `LIMIT n`. */
  function Take<T>(s: seq<T>, n: nat): (r: seq<T>)
    ensures |r| <= n && |r| <= |s|
    ensures |r| == if |s| <= n then |s| else n
    ensures r <= s
  {
    if |s| <= n then s else s[..n]
  }

  // ---------------------------------------------------------------- distinctBy

  predicate HasKeyBefore<T, K(==)>(s: seq<T>, key: T -> K, n: nat, k: K)
    requires n <= |s|
  {
    exists i :: 0 <= i < n && key(s[i]) == k
  }

  /** Kotlin `s.distinctBy(key)`: the first element of each key, in order. */
  function DistinctBy<T, K(==)>(s: seq<T>, key: T -> K): (r: seq<T>)
    ensures |r| <= |s|
    ensures forall j :: 0 <= j < |r| ==> r[j] in s
  {
    if |s| == 0 then []
    else
      var init := s[..|s| - 1];
      var last := s[|s| - 1];
      var p := DistinctBy(init, key);
      if HasKeyBefore(s, key, |s| - 1, key(last)) then p else p + [last]
  }

  /** No two elements `DistinctBy` keeps share a key. */
  lemma {:induction false} DistinctByUniqueKeys<T, K>(s: seq<T>, key: T -> K)
    ensures forall i, j :: 0 <= i < j < |DistinctBy(s, key)| ==>
      key(DistinctBy(s, key)[i]) != key(DistinctBy(s, key)[j])
  {
    if |s| > 0 {
      var init := s[..|s| - 1];
      var last := s[|s| - 1];
      var p := DistinctBy(init, key);
      DistinctByUniqueKeys(init, key);
      if !HasKeyBefore(s, key, |s| - 1, key(last)) {
        forall i | 0 <= i < |p| ensures key(p[i]) != key(last) {
          var k :| 0 <= k < |init| && init[k] == p[i];
          assert s[k] == p[i];
        }
      }
    }
  }

  /** Every key of `s` is the key of some element `DistinctBy` keeps. */
  lemma {:induction false} DistinctByCoversKeys<T, K>(s: seq<T>, key: T -> K, i: nat)
    requires i < |s|
    ensures exists j :: 0 <= j < |DistinctBy(s, key)| && key(DistinctBy(s, key)[j]) == key(s[i])
  {
    var init := s[..|s| - 1];
    var last := s[|s| - 1];
    var p := DistinctBy(init, key);
    var r := DistinctBy(s, key);
    if i < |s| - 1 {
      DistinctByCoversKeys(init, key, i);
      var j :| 0 <= j < |p| && key(p[j]) == key(init[i]);
      assert r[j] == p[j];
    } else if HasKeyBefore(s, key, |s| - 1, key(last)) {
      var k :| 0 <= k < |s| - 1 && key(s[k]) == key(last);
      DistinctByCoversKeys(init, key, k);
      var j :| 0 <= j < |p| && key(p[j]) == key(init[k]);
      assert r[j] == p[j];
    } else {
      assert r[|r| - 1] == last;
    }
  }

  /** Each element `DistinctBy` keeps is the first element of `s` with its key. */
  lemma {:induction false} DistinctByKeepsFirst<T, K>(s: seq<T>, key: T -> K, j: nat)
    requires j < |DistinctBy(s, key)|
    ensures exists i :: 0 <= i < |s| && s[i] == DistinctBy(s, key)[j] && !HasKeyBefore(s, key, i, key(s[i]))
  {
    var init := s[..|s| - 1];
    var last := s[|s| - 1];
    var p := DistinctBy(init, key);
    if j < |p| {
      DistinctByKeepsFirst(init, key, j);
      var i :| 0 <= i < |init| && init[i] == p[j] && !HasKeyBefore(init, key, i, key(init[i]));
      assert s[i] == DistinctBy(s, key)[j];
      assert forall k :: 0 <= k < i ==> s[k] == init[k];
      assert !HasKeyBefore(s, key, i, key(s[i]));
    } else {
      assert DistinctBy(s, key)[j] == last;
    }
  }

  /** `DistinctBy` keeps input order: of two kept elements, the earlier one is the
      first occurrence of an earlier key. */
  lemma {:induction false} DistinctByKeepsOrder<T, K>(s: seq<T>, key: T -> K, j1: nat, j2: nat, i1: nat, i2: nat)
    requires j1 < j2 < |DistinctBy(s, key)|
    requires i1 < |s| && s[i1] == DistinctBy(s, key)[j1] && !HasKeyBefore(s, key, i1, key(s[i1]))
    requires i2 < |s| && s[i2] == DistinctBy(s, key)[j2] && !HasKeyBefore(s, key, i2, key(s[i2]))
    ensures i1 < i2
  {
    var init := s[..|s| - 1];
    var last := s[|s| - 1];
    var p := DistinctBy(init, key);
    assert DistinctBy(s, key)[j1] == p[j1];
    var k1 :| 0 <= k1 < |init| && init[k1] == p[j1];
    assert i1 <= k1;
    if j2 < |p| {
      var k2 :| 0 <= k2 < |init| && init[k2] == p[j2];
      assert i2 <= k2;
      assert !HasKeyBefore(init, key, i1, key(init[i1]));
      assert !HasKeyBefore(init, key, i2, key(init[i2]));
      DistinctByKeepsOrder(init, key, j1, j2, i1, i2);
    } else {
      assert s[i2] == last;
      assert i2 == |s| - 1;
    }
  }

  // ---------------------------------------------------------------- sortedBy

  /** `le` orders every pair of values and is transitive. */
  ghost predicate TotalPreorder<T(!new)>(le: (T, T) -> bool)
  {
    && (forall a, b :: le(a, b) || le(b, a))
    && (forall a, b, c :: le(a, b) && le(b, c) ==> le(a, c))
  }

  predicate SortedBy<T>(s: seq<T>, le: (T, T) -> bool)
  {
    forall i, j :: 0 <= i < j < |s| ==> le(s[i], s[j])
  }

  /** Inserts `x` after every element that is not greater than it. */
  function InsertBy<T>(x: T, s: seq<T>, le: (T, T) -> bool): (r: seq<T>)
    ensures multiset(r) == multiset(s) + multiset{x}
  {
    if |s| == 0 then [x]
    else if !le(s[0], x) then [x] + s
    else
      assert s == [s[0]] + s[1..];
      [s[0]] + InsertBy(x, s[1..], le)
  }

  lemma {:induction false} InsertBySorted<T(!new)>(x: T, s: seq<T>, le: (T, T) -> bool)
    requires TotalPreorder(le) && SortedBy(s, le)
    ensures SortedBy(InsertBy(x, s, le), le)
  {
    var r := InsertBy(x, s, le);
    if |s| == 0 {
    } else if !le(s[0], x) {
      assert le(x, s[0]);
      forall i, j | 0 <= i < j < |r| ensures le(r[i], r[j]) {
        if i == 0 && j > 1 {
          assert le(s[0], s[j - 1]);
        }
      }
    } else {
      var t := InsertBy(x, s[1..], le);
      InsertBySorted(x, s[1..], le);
      forall k | 0 <= k < |t| ensures le(s[0], t[k]) {
        assert t[k] in multiset(t);
        assert t[k] == x || t[k] in multiset(s[1..]);
        if t[k] != x {
          var m :| 0 <= m < |s[1..]| && s[1..][m] == t[k];
          assert s[m + 1] == t[k];
        }
      }
      assert r == [s[0]] + t;
    }
  }

  /** Kotlin `s.sortedWith(le)` (and `sortedBy`), a stable sort: an insertion sort
      that places each element after all earlier ones that are not greater. */
  function SortBy<T>(s: seq<T>, le: (T, T) -> bool): (r: seq<T>)
    ensures multiset(r) == multiset(s)
    ensures |r| == |s|
  {
    if |s| == 0 then []
    else
      var init := s[..|s| - 1];
      assert s == init + [s[|s| - 1]];
      var r := InsertBy(s[|s| - 1], SortBy(init, le), le);
      assert |r| == |multiset(r)|;
      r
  }

  /** `SortBy` orders its result by `le`. */
  lemma {:induction false} SortBySorted<T(!new)>(s: seq<T>, le: (T, T) -> bool)
    requires TotalPreorder(le)
    ensures SortedBy(SortBy(s, le), le)
  {
    if |s| > 0 {
      SortBySorted(s[..|s| - 1], le);
      InsertBySorted(s[|s| - 1], SortBy(s[..|s| - 1], le), le);
    }
  }

  /** The elements `le` ranks equal to `e`. */
  function EquivTo<T>(le: (T, T) -> bool, e: T): T -> bool
  {
    (y: T) => le(e, y) && le(y, e)
  }

  /** Inserting into a sorted list places `x` after every element it ties with. */
  lemma {:induction false} InsertByStable<T(!new)>(x: T, s: seq<T>, le: (T, T) -> bool, e: T)
    requires TotalPreorder(le) && SortedBy(s, le)
    ensures Filter(InsertBy(x, s, le), EquivTo(le, e))
      == Filter(s, EquivTo(le, e)) + (if EquivTo(le, e)(x) then [x] else [])
  {
    var E := EquivTo(le, e);
    if |s| == 0 {
    } else if !le(s[0], x) {
      FilterAppend([x], s, E);
      if E(x) {
        NoTieAfterGreater(x, s, le, e);
      }
    } else {
      assert s == [s[0]] + s[1..];
      InsertByStable(x, s[1..], le, e);
      FilterAppend([s[0]], InsertBy(x, s[1..], le), E);
      FilterAppend([s[0]], s[1..], E);
    }
  }

  /** Nothing in a sorted list whose head ranks above `x` ties with `x`. */
  lemma NoTieAfterGreater<T(!new)>(x: T, s: seq<T>, le: (T, T) -> bool, e: T)
    requires TotalPreorder(le) && SortedBy(s, le) && |s| > 0 && !le(s[0], x) && EquivTo(le, e)(x)
    ensures Filter(s, EquivTo(le, e)) == []
  {
  }

  /** `SortBy` is stable: the elements that tie with `e` keep their input order. */
  lemma {:induction false} SortByStable<T(!new)>(s: seq<T>, le: (T, T) -> bool, e: T)
    requires TotalPreorder(le)
    ensures Filter(SortBy(s, le), EquivTo(le, e)) == Filter(s, EquivTo(le, e))
  {
    if |s| > 0 {
      var init := s[..|s| - 1];
      SortByStable(init, le, e);
      SortBySorted(init, le);
      InsertByStable(s[|s| - 1], SortBy(init, le), le, e);
    }
  }

  /** In a sequence whose keys are pairwise distinct, each element occurs once. */
  lemma KeysDistinctOccursOnce<T, K>(s: seq<T>, key: T -> K, i: nat)
    requires i < |s|
    requires forall a, b :: 0 <= a < b < |s| ==> key(s[a]) != key(s[b])
    ensures multiset(s)[s[i]] == 1
  {
    var x := s[i];
    assert s == s[..i] + [x] + s[i + 1..];
    assert x !in s[..i] by {
      forall a | 0 <= a < i ensures s[a] != x { assert key(s[a]) != key(s[i]); }
    }
    assert x !in s[i + 1..] by {
      forall b | i < b < |s| ensures s[b] != x { assert key(s[i]) != key(s[b]); }
    }
    assert multiset(s) == multiset(s[..i]) + multiset{x} + multiset(s[i + 1..]);
  }

  /** Reordering keeps keys pairwise distinct. */
  lemma DistinctKeysPermutation<T, K>(s: seq<T>, r: seq<T>, key: T -> K)
    requires multiset(s) == multiset(r)
    requires forall a, b :: 0 <= a < b < |s| ==> key(s[a]) != key(s[b])
    ensures forall a, b :: 0 <= a < b < |r| ==> key(r[a]) != key(r[b])
  {
    forall a, b | 0 <= a < b < |r| ensures key(r[a]) != key(r[b]) {
      assert r[a] in multiset(s) && r[b] in multiset(s);
      var a' :| 0 <= a' < |s| && s[a'] == r[a];
      var b' :| 0 <= b' < |s| && s[b'] == r[b];
      if a' == b' {
        RepeatedElementCount(r, a, b);
        KeysDistinctOccursOnce(s, key, a');
        assert false;
      } else if a' < b' {
        assert key(s[a']) != key(s[b']);
      } else {
        assert key(s[b']) != key(s[a']);
      }
    }
  }

  /** An element found at two positions occurs at least twice. */
  lemma RepeatedElementCount<T>(r: seq<T>, a: nat, b: nat)
    requires a < b < |r| && r[a] == r[b]
    ensures multiset(r)[r[a]] >= 2
  {
    assert r == r[..a] + [r[a]] + r[a + 1..b] + [r[b]] + r[b + 1..];
  }
}
