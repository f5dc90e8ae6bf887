/** Stable sorting by a numeric key, and nearest-rank percentiles of sorted numbers. */
module Sorting {

  // ------------------------------------------------------------- stable sorting

  function Insert<T>(x: T, s: seq<T>, key: T -> real): (r: seq<T>)
    ensures |r| == |s| + 1
  {
    if s == [] || key(x) <= key(s[0]) then [x] + s else [s[0]] + Insert(x, s[1..], key)
  }

  function SortBy<T>(s: seq<T>, key: T -> real): (r: seq<T>)
    ensures |r| == |s|
  {
    if s == [] then [] else Insert(s[0], SortBy(s[1..], key), key)
  }

  predicate Ascending<T>(s: seq<T>, key: T -> real) {
    forall i, j | 0 <= i < j < |s| :: key(s[i]) <= key(s[j])
  }

  /** A least element goes in front. */
  lemma AscendingCons<T>(x: T, s: seq<T>, key: T -> real)
    requires Ascending(s, key) && (s != [] ==> key(x) <= key(s[0]))
    ensures Ascending([x] + s, key)
  {
    var r := [x] + s;
    forall i, j | 0 <= i < j < |r| ensures key(r[i]) <= key(r[j]) {
      assert r[j] == s[j - 1];
      assert i > 0 ==> r[i] == s[i - 1];
    }
  }

  lemma {:induction false} InsertAscends<T>(x: T, s: seq<T>, key: T -> real)
    requires Ascending(s, key)
    ensures Ascending(Insert(x, s, key), key)
    ensures Insert(x, s, key)[0] == x || (s != [] && Insert(x, s, key)[0] == s[0])
  {
    if s == [] || key(x) <= key(s[0]) {
      AscendingCons(x, s, key);
    } else {
      InsertAscends(x, s[1..], key);
      AscendingCons(s[0], Insert(x, s[1..], key), key);
    }
  }

  lemma {:induction false} InsertKeeps<T>(x: T, s: seq<T>, key: T -> real)
    ensures multiset(Insert(x, s, key)) == multiset(s) + multiset{x}
  {
    if s != [] && key(x) > key(s[0]) {
      InsertKeeps(x, s[1..], key);
      assert s == [s[0]] + s[1..];
    }
  }

  /** Sorting yields the same elements in ascending order of their keys. */
  lemma {:induction false} SortAscends<T>(s: seq<T>, key: T -> real)
    ensures Ascending(SortBy(s, key), key) && multiset(SortBy(s, key)) == multiset(s)
  {
    if s != [] {
      hide Ascending, Insert;
      SortAscends(s[1..], key);
      InsertAscends(s[0], SortBy(s[1..], key), key);
      InsertKeeps(s[0], SortBy(s[1..], key), key);
      assert s == [s[0]] + s[1..];
    }
  }

  /** The elements with a given key, in order. */
  function WithKey<T>(s: seq<T>, key: T -> real, k: real): seq<T> {
    if s == [] then [] else (if key(s[0]) == k then [s[0]] else []) + WithKey(s[1..], key, k)
  }

  lemma WithKeyCons<T>(x: T, s: seq<T>, key: T -> real, k: real)
    ensures WithKey([x] + s, key, k) == (if key(x) == k then [x] else []) + WithKey(s, key, k)
  {
    assert ([x] + s)[1..] == s;
  }

  lemma {:induction false} InsertIsStable<T>(x: T, s: seq<T>, key: T -> real, k: real)
    ensures WithKey(Insert(x, s, key), key, k) == (if key(x) == k then [x] else []) + WithKey(s, key, k)
  {
    if s == [] || key(x) <= key(s[0]) {
      WithKeyCons(x, s, key, k);
    } else {
      hide WithKey;
      InsertIsStable(x, s[1..], key, k);
      WithKeyCons(s[0], Insert(x, s[1..], key), key, k);
      WithKeyCons(s[0], s[1..], key, k);
      assert s == [s[0]] + s[1..];
    }
  }

  /** Elements with equal keys keep their order. */
  lemma {:induction false} SortIsStable<T>(s: seq<T>, key: T -> real, k: real)
    ensures WithKey(SortBy(s, key), key, k) == WithKey(s, key, k)
  {
    if s != [] {
      SortIsStable(s[1..], key, k);
      InsertIsStable(s[0], SortBy(s[1..], key), key, k);
    }
  }

  // ------------------------------------------------------------- sorted numbers

  function Sorted(values: seq<real>): (r: seq<real>)
    ensures |r| == |values|
  {
    SortBy(values, x => x)
  }

  predicate Rising(s: seq<real>) { forall i, j | 0 <= i < j < |s| :: s[i] <= s[j] }

  lemma SortedIs(values: seq<real>)
    ensures Rising(Sorted(values)) && multiset(Sorted(values)) == multiset(values)
    ensures forall v :: v in Sorted(values) <==> v in values
  {
    SortAscends(values, x => x);
    forall v ensures v in Sorted(values) <==> v in values {
      assert v in multiset(Sorted(values)) <==> v in multiset(values);
    }
  }

  /** The head of a rising sequence is the least of its values. */
  lemma RisingHead(s: seq<real>, v: real)
    requires Rising(s) && v in multiset(s)
    ensures s != [] && s[0] <= v
  {
    assert v in s;
  }

  lemma RisingTail(s: seq<real>)
    requires s != [] && Rising(s)
    ensures Rising(s[1..]) && multiset(s[1..]) == multiset(s) - multiset{s[0]}
  {
    assert s == [s[0]] + s[1..];
  }

  lemma SameHead(a: seq<real>, b: seq<real>)
    requires Rising(a) && Rising(b) && multiset(a) == multiset(b) && a != []
    ensures b != [] && a[0] == b[0] && multiset(a[1..]) == multiset(b[1..])
  {
    assert a[0] in multiset(a);
    RisingHead(b, a[0]);
    assert b[0] in multiset(b);
    RisingHead(a, b[0]);
    RisingTail(a);
    RisingTail(b);
  }

  lemma {:induction false} RisingIsUnique(a: seq<real>, b: seq<real>)
    requires Rising(a) && Rising(b) && multiset(a) == multiset(b)
    ensures a == b
  {
    if a == [] {
      assert |multiset(b)| == 0;
    } else {
      SameHead(a, b);
      RisingIsUnique(a[1..], b[1..]);
      assert a == [a[0]] + a[1..] && b == [b[0]] + b[1..];
    }
  }

  /** The sorted sequence does not depend on the order of the values. */
  lemma SortedIgnoresOrder(a: seq<real>, b: seq<real>)
    requires multiset(a) == multiset(b)
    ensures Sorted(a) == Sorted(b)
  {
    SortedIs(a);
    SortedIs(b);
    RisingIsUnique(Sorted(a), Sorted(b));
  }

  // ---------------------------------------------------------------- percentiles

  function Ceiling(x: real): int { -((-x).Floor) }

  /** The element a percentile selects, the index clamped to the sequence. */
  function Percentile(sorted: seq<real>, percentile: real): real
    requires sorted != []
  {
    sorted[Pick(|sorted|, Rank(percentile, |sorted|))]
  }

  function Rank(p: real, n: nat): real { p / 100.0 * n as real }

  /** The index of a rank, clamped to n elements. */
  function Pick(n: nat, rank: real): (i: nat)
    requires n > 0
    ensures i < n
  {
    var index := Ceiling(rank) - 1;
    if index < 0 then 0 else if index > n - 1 then n - 1 else index
  }

  /** How many of the values are at most v. */
  function AtMost(values: seq<real>, v: real): (n: nat)
    ensures n <= |values|
  {
    if values == [] then 0 else (if values[0] <= v then 1 else 0) + AtMost(values[1..], v)
  }

  lemma {:induction false} AtMostAppend(a: seq<real>, b: seq<real>, v: real)
    ensures AtMost(a + b, v) == AtMost(a, v) + AtMost(b, v)
  {
    if a == [] {
      assert a + b == b;
    } else {
      assert (a + b)[1..] == a[1..] + b;
      AtMostAppend(a[1..], b, v);
    }
  }

  lemma {:induction false} AtMostAllOrNone(s: seq<real>, v: real)
    ensures (forall x <- s :: x <= v) ==> AtMost(s, v) == |s|
    ensures (forall x <- s :: x > v) ==> AtMost(s, v) == 0
  {
    if s != [] {
      AtMostAllOrNone(s[1..], v);
      assert s[0] in s && forall x <- s[1..] :: x in s;
    }
  }

  /** At least i + 1 values are at most the i-th sorted one, and at most i are below it. */
  lemma RankOf(s: seq<real>, i: nat, v: real)
    requires Rising(s) && i < |s|
    ensures s[i] <= v ==> AtMost(s, v) >= i + 1
    ensures v < s[i] ==> AtMost(s, v) <= i
  {
    hide AtMost;
    if s[i] <= v {
      var low := s[..i + 1];
      assert s == low + s[i + 1..];
      AtMostAppend(low, s[i + 1..], v);
      forall x | x in low ensures x <= v {
        var j :| 0 <= j <= i && s[j] == x;
      }
      AtMostAllOrNone(low, v);
    } else {
      var high := s[i..];
      assert s == s[..i] + high;
      AtMostAppend(s[..i], high, v);
      forall x | x in high ensures x > v {
        var j :| i <= j < |s| && s[j] == x;
      }
      AtMostAllOrNone(high, v);
    }
  }

  lemma {:induction false} InsertCounts(x: real, s: seq<real>, v: real)
    ensures AtMost(Insert(x, s, y => y), v) == AtMost(s, v) + if x <= v then 1 else 0
  {
    if s == [] || x <= s[0] {
      assert ([x] + s)[1..] == s;
    } else {
      InsertCounts(x, s[1..], v);
      var rest := Insert(x, s[1..], y => y);
      assert ([s[0]] + rest)[1..] == rest;
    }
  }

  lemma {:induction false} SortCounts(values: seq<real>, v: real)
    ensures AtMost(SortBy(values, y => y), v) == AtMost(values, v)
  {
    if values != [] {
      SortCounts(values[1..], v);
      InsertCounts(values[0], SortBy(values[1..], y => y), v);
    }
  }

  /** v is the least of the values that at least p percent of them do not exceed. */
  ghost predicate IsNearestRank(values: seq<real>, p: real, v: real) {
    && v in values
    && 100.0 * AtMost(values, v) as real >= p * |values| as real
    && forall w <- values :: 100.0 * AtMost(values, w) as real >= p * |values| as real ==> v <= w
  }

  lemma RankOrder(p: real, q: real, n: nat)
    requires p <= q
    ensures Rank(p, n) <= Rank(q, n)
  {
    var m := n as real;
    assert (q / 100.0 - p / 100.0) * m >= 0.0;
  }

  lemma RankBounds(p: real, n: nat)
    requires 0.0 < p <= 100.0 && n > 0
    ensures 100.0 * Rank(p, n) == p * n as real && 0.0 < Rank(p, n) <= n as real
  {
    RankOrder(p, 100.0, n);
  }

  /** A rank inside the sequence selects the element at the next whole number. */
  lemma PickAt(n: nat, rank: real)
    requires 0.0 < rank <= n as real
    ensures n > 0 && (Pick(n, rank) as real) < rank <= Pick(n, rank) as real + 1.0
  {
  }

  /** The i-th sorted value is the nearest rank when i is the last index below the rank. */
  lemma {:induction false} NearestRankAt(values: seq<real>, rank: real, i: nat)
    requires i < |values| && (i as real) < rank <= i as real + 1.0
    ensures var v := Sorted(values)[i];
            && v in values && AtMost(values, v) as real >= rank
            && forall w <- values :: AtMost(values, w) as real >= rank ==> v <= w
  {
    hide Rising, AtMost, SortBy;
    var s := Sorted(values);
    SortedIs(values);
    var v := s[i];
    assert v in s;
    RankOf(s, i, v);
    SortCounts(values, v);
    forall w <- values | AtMost(values, w) as real >= rank ensures v <= w {
      RankOf(s, i, w);
      SortCounts(values, w);
    }
  }

  /** The percentile of the sorted values is their nearest-rank percentile. */
  lemma {:induction false} PercentileIsNearestRank(values: seq<real>, p: real)
    requires values != [] && 0.0 < p <= 100.0
    ensures IsNearestRank(values, p, Percentile(Sorted(values), p))
  {
    hide Rank, Pick, Sorted, AtMost;
    var rank := Rank(p, |values|);
    RankBounds(p, |values|);
    PickAt(|values|, rank);
    NearestRankAt(values, rank, Pick(|values|, rank));
  }

  /** Percentiles rise with the percentage, whatever the percentages are. */
  lemma {:induction false} PercentileMonotone(values: seq<real>, p: real, q: real)
    requires values != [] && p <= q
    ensures Percentile(Sorted(values), p) <= Percentile(Sorted(values), q)
  {
    hide Rank;
    SortedIs(values);
    RankOrder(p, q, |values|);
    assert Pick(|values|, Rank(p, |values|)) <= Pick(|values|, Rank(q, |values|));
  }
}
