/** The relational operations the reports are built from, over sequences of rows:
    selection (WHERE), the keys of a GROUP BY in order of first appearance, ORDER BY as a
    stable insertion sort, LIMIT, and SUM. */
module Sequences {

  /** The elements of `s` satisfying `p`, in their original order. */
  function Filter<T(!new)>(s: seq<T>, p: T -> bool): seq<T> {
    if s == [] then []
    else (if p(s[0]) then [s[0]] else []) + Filter(s[1..], p)
  }

  /** The elements of `s` that satisfy `p`, no more than there were. */
  lemma {:induction false} FilterMeaning<T(!new)>(s: seq<T>, p: T -> bool)
    ensures |Filter(s, p)| <= |s|
    ensures forall x :: x in Filter(s, p) <==> x in s && p(x)
  {
    if s != [] {
      FilterMeaning(s[1..], p);
      assert s == [s[0]] + s[1..];
    }
  }

  /** No element passes: nothing is kept. */
  lemma {:induction false} FilterNone<T(!new)>(s: seq<T>, p: T -> bool)
    requires forall x :: x in s ==> !p(x)
    ensures Filter(s, p) == []
  {
    if s != [] {
      assert s[0] in s;
      FilterNone(s[1..], p);
    }
  }

  predicate NoDuplicates<T(==)>(s: seq<T>) {
    forall i, j :: 0 <= i < j < |s| ==> s[i] != s[j]
  }

  /** The distinct elements of `s`, each at the place it first occurs. */
  function Distinct<T(==,!new)>(s: seq<T>): (r: seq<T>)
    ensures NoDuplicates(r)
    ensures forall x :: x in r <==> x in s
    decreases |s|
  {
    if s == [] then []
    else
      FilterMeaning(s[1..], x => x != s[0]);
      var rest := Distinct(Filter(s[1..], x => x != s[0]));
      assert s[0] !in rest;
      [s[0]] + rest
  }

  function MapSeq<T, U>(s: seq<T>, f: T -> U): (r: seq<U>)
    ensures |r| == |s| && forall i :: 0 <= i < |s| ==> r[i] == f(s[i])
  {
    seq(|s|, i requires 0 <= i < |s| => f(s[i]))
  }

  /** The groups a GROUP BY `key` forms over `s`: one key per group, in order of first
      appearance. */
  function GroupKeys<T(!new), K(==,!new)>(s: seq<T>, key: T -> K): seq<K> {
    Distinct(MapSeq(s, key))
  }

  /** One key per group, and exactly the keys some element has. */
  lemma GroupKeysMeaning<T(!new), K(!new)>(s: seq<T>, key: T -> K)
    ensures NoDuplicates(GroupKeys(s, key))
    ensures forall k :: k in GroupKeys(s, key) <==> exists x :: x in s && key(x) == k
  {
    var keys := MapSeq(s, key);
    forall k ensures k in keys <==> exists x :: x in s && key(x) == k {
      if k in keys {
        var i :| 0 <= i < |keys| && keys[i] == k;
        assert s[i] in s;
      }
      if exists x :: x in s && key(x) == k {
        var x :| x in s && key(x) == k;
        var i :| 0 <= i < |s| && s[i] == x;
        assert keys[i] == k;
      }
    }
  }

  /** The members of the group of `k`. */
  function Members<T(!new), K(==)>(s: seq<T>, key: T -> K, k: K): seq<T> {
    Filter(s, x => key(x) == k)
  }

  lemma MembersMeaning<T(!new), K>(s: seq<T>, key: T -> K, k: K)
    ensures forall x :: x in Members(s, key, k) <==> x in s && key(x) == k
  {
    FilterMeaning(s, x => key(x) == k);
  }

  /** A SUM over the rows of `s`; zero for no rows (COALESCE(SUM(..), 0)). */
  function Sum<T>(s: seq<T>, f: T -> real): real {
    if s == [] then 0.0 else f(s[0]) + Sum(s[1..], f)
  }

  function SumInt<T>(s: seq<T>, f: T -> int): int {
    if s == [] then 0 else f(s[0]) + SumInt(s[1..], f)
  }

  lemma {:induction false} SumBounds<T>(s: seq<T>, f: T -> real, lo: real, hi: real)
    requires forall x :: x in s ==> lo <= f(x) <= hi
    ensures (|s| as real) * lo <= Sum(s, f) <= (|s| as real) * hi
  {
    if s != [] {
      SumBounds(s[1..], f, lo, hi);
      assert s[0] in s;
      assert (|s| as real) * lo == lo + (|s[1..]| as real) * lo;
      assert (|s| as real) * hi == hi + (|s[1..]| as real) * hi;
    }
  }

  lemma {:induction false} SumIntBounds<T>(s: seq<T>, f: T -> int, lo: int, hi: int)
    requires forall x :: x in s ==> lo <= f(x) <= hi
    ensures |s| * lo <= SumInt(s, f) <= |s| * hi
  {
    if s != [] {
      SumIntBounds(s[1..], f, lo, hi);
      assert s[0] in s;
      assert |s| * lo == lo + |s[1..]| * lo;
      assert |s| * hi == hi + |s[1..]| * hi;
    }
  }

  // ---------------------------------------------------------------------------
  // ORDER BY

  /** Every element comes no later than each one after it. */
  predicate SortedBy<T>(s: seq<T>, le: (T, T) -> bool) {
    forall i, j :: 0 <= i < j < |s| ==> le(s[i], s[j])
  }

  /** `le` compares any two rows and is transitive; rows may tie both ways. */
  ghost predicate TotalPreorder<T(!new)>(le: (T, T) -> bool) {
    && (forall a, b :: le(a, b) || le(b, a))
    && (forall a, b, c :: le(a, b) && le(b, c) ==> le(a, c))
  }

  /** `x` placed in `s` before the first element it comes before. */
  function Insert<T>(x: T, s: seq<T>, le: (T, T) -> bool): seq<T> {
    if s == [] then [x]
    else if le(x, s[0]) then [x] + s
    else [s[0]] + Insert(x, s[1..], le)
  }

  /** Inserting adds `x` once and keeps every other row. */
  lemma {:induction false} InsertPermutes<T>(x: T, s: seq<T>, le: (T, T) -> bool)
    ensures multiset(Insert(x, s, le)) == multiset(s) + multiset{x}
  {
    if s == [] {
    } else if le(x, s[0]) {
      assert Insert(x, s, le) == [x] + s;
    } else {
      InsertPermutes(x, s[1..], le);
      var t := Insert(x, s[1..], le);
      assert Insert(x, s, le) == [s[0]] + t;
      assert s == [s[0]] + s[1..];
      assert multiset([s[0]] + t) == multiset{s[0]} + multiset(t);
      assert multiset(s) == multiset{s[0]} + multiset(s[1..]);
    }
  }

  lemma {:induction false} InsertSorted<T(!new)>(x: T, s: seq<T>, le: (T, T) -> bool)
    requires TotalPreorder(le)
    requires SortedBy(s, le)
    ensures SortedBy(Insert(x, s, le), le)
  {
    if s == [] {
    } else if le(x, s[0]) {
      var r := [x] + s;
      forall i, j | 0 <= i < j < |r| ensures le(r[i], r[j]) {
        if i > 0 {
          assert r[i] == s[i - 1] && r[j] == s[j - 1];
        } else {
          assert r[j] == s[j - 1];
          assert le(s[0], s[j - 1]) || j == 1;
        }
      }
    } else {
      var rest := Insert(x, s[1..], le);
      assert SortedBy(s[1..], le) by {
        forall i, j | 0 <= i < j < |s[1..]| ensures le(s[1..][i], s[1..][j]) {
          assert s[1..][i] == s[i + 1] && s[1..][j] == s[j + 1];
        }
      }
      InsertSorted(x, s[1..], le);
      InsertPermutes(x, s[1..], le);
      assert le(s[0], x);
      var r := [s[0]] + rest;
      forall i, j | 0 <= i < j < |r| ensures le(r[i], r[j]) {
        if i > 0 {
          assert r[i] == rest[i - 1] && r[j] == rest[j - 1];
        } else {
          var y := rest[j - 1];
          assert y in multiset(rest);
          if y != x {
            assert y in multiset(s[1..]);
            var k :| 0 <= k < |s[1..]| && s[1..][k] == y;
            assert s[k + 1] == y;
          }
        }
      }
    }
  }

  /** The rows of `s` ordered by `le` (an insertion sort); rows that tie keep their
      original order. */
  function SortBy<T(!new)>(s: seq<T>, le: (T, T) -> bool): seq<T> {
    if s == [] then [] else Insert(s[0], SortBy(s[1..], le), le)
  }

  /** The insertion sort reorders its input: it keeps every row, as often as it occurs. */
  lemma {:induction false} SortByPermutes<T(!new)>(s: seq<T>, le: (T, T) -> bool)
    ensures multiset(SortBy(s, le)) == multiset(s)
  {
    if s != [] {
      SortByPermutes(s[1..], le);
      InsertPermutes(s[0], SortBy(s[1..], le), le);
      assert s == [s[0]] + s[1..];
    }
  }

  /** For a total preorder the insertion sort orders its input. */
  lemma {:induction false} SortBySorted<T(!new)>(s: seq<T>, le: (T, T) -> bool)
    requires TotalPreorder(le)
    ensures SortedBy(SortBy(s, le), le)
  {
    if s != [] {
      SortBySorted(s[1..], le);
      SortByPermutes(s[1..], le);
      InsertSorted(s[0], SortBy(s[1..], le), le);
    }
  }

  /** LIMIT n. */
  function Take<T>(s: seq<T>, n: nat): (r: seq<T>)
    ensures |r| <= n && |r| <= |s| && r == s[..|r|]
    ensures |r| == |s| || |r| == n
  {
    if n < |s| then s[..n] else s
  }

  // ---------------------------------------------------------------------------
  // One row per group survives reordering

  /** No two rows share a key. */
  predicate KeysDistinct<T, K(==)>(s: seq<T>, key: T -> K) {
    forall i, j :: 0 <= i < j < |s| ==> key(s[i]) != key(s[j])
  }

  lemma {:induction false} TwoOccurrences<T>(s: seq<T>, i: int, j: int)
    requires 0 <= i < j < |s| && s[i] == s[j]
    ensures multiset(s)[s[i]] >= 2
  {
    assert s == s[..j] + [s[j]] + s[j + 1..];
    assert s[..j][i] == s[i];
    assert s[i] in multiset(s[..j]);
    assert multiset(s) == multiset(s[..j]) + multiset{s[j]} + multiset(s[j + 1..]);
  }

  lemma {:induction false} OccursTwice<T>(s: seq<T>, x: T)
    requires multiset(s)[x] >= 2
    ensures exists i, j :: 0 <= i < j < |s| && s[i] == x && s[j] == x
  {
    assert s == [s[0]] + s[1..];
    assert multiset(s) == multiset{s[0]} + multiset(s[1..]);
    if s[0] == x {
      assert x in multiset(s[1..]);
      var k :| 0 <= k < |s[1..]| && s[1..][k] == x;
      assert s[k + 1] == x;
    } else {
      OccursTwice(s[1..], x);
      var i, j :| 0 <= i < j < |s[1..]| && s[1..][i] == x && s[1..][j] == x;
      assert s[i + 1] == x && s[j + 1] == x;
    }
  }

  /** A permutation of rows with distinct keys has distinct keys. */
  lemma PermutationKeepsKeysDistinct<T, K>(a: seq<T>, b: seq<T>, key: T -> K)
    requires multiset(a) == multiset(b)
    requires KeysDistinct(a, key)
    ensures KeysDistinct(b, key)
  {
    forall i, j | 0 <= i < j < |b| ensures key(b[i]) != key(b[j]) {
      assert b[i] in multiset(a) && b[j] in multiset(a);
      var p :| 0 <= p < |a| && a[p] == b[i];
      var q :| 0 <= q < |a| && a[q] == b[j];
      if b[i] == b[j] {
        TwoOccurrences(b, i, j);
        OccursTwice(a, b[i]);
        assert false;
      }
      assert p != q;
    }
  }

  // ---------------------------------------------------------------------------
  // ORDER BY .. LIMIT over grouped rows

  /** Ordering rows with distinct keys and keeping the first `n`: the result is ordered,
      still has distinct keys, holds only rows of the input, and holds all of them when it
      is shorter than the limit. */
  lemma RankKeepsRows<T(!new), K>(rows: seq<T>, le: (T, T) -> bool, key: T -> K, n: nat)
    requires TotalPreorder(le)
    requires KeysDistinct(rows, key)
    ensures SortedBy(Take(SortBy(rows, le), n), le)
    ensures KeysDistinct(Take(SortBy(rows, le), n), key)
    ensures |Take(SortBy(rows, le), n)| <= n
    ensures forall x :: x in Take(SortBy(rows, le), n) ==> x in rows
    ensures |Take(SortBy(rows, le), n)| < n ==> forall x :: x in rows ==> x in Take(SortBy(rows, le), n)
  {
    var s := SortBy(rows, le);
    var r := Take(s, n);
    SortBySorted(rows, le);
    SortByPermutes(rows, le);
    PermutationKeepsKeysDistinct(rows, s, key);
    forall x | x in r ensures x in rows {
      var i :| 0 <= i < |r| && r[i] == x;
      assert s[i] == x;
      assert x in multiset(s);
    }
    if |r| < n {
      assert r == s;
      forall x | x in rows ensures x in r {
        assert x in multiset(rows);
      }
    }
    forall i, j | 0 <= i < j < |r| ensures le(r[i], r[j]) && key(r[i]) != key(r[j]) {
      assert r[i] == s[i] && r[j] == s[j];
    }
  }

  /** LIMIT after ORDER BY keeps the best rows: every row it cuts comes after every row
      it keeps. */
  lemma RankKeepsBest<T(!new)>(rows: seq<T>, le: (T, T) -> bool, n: nat)
    requires TotalPreorder(le)
    ensures forall x, y :: x in rows && x !in Take(SortBy(rows, le), n) && y in Take(SortBy(rows, le), n) ==> le(y, x)
  {
    var s := SortBy(rows, le);
    var r := Take(s, n);
    SortBySorted(rows, le);
    SortByPermutes(rows, le);
    forall x, y | x in rows && x !in r && y in r ensures le(y, x) {
      assert x in multiset(rows);
      assert x in multiset(s);
      var p :| 0 <= p < |s| && s[p] == x;
      var i :| 0 <= i < |r| && r[i] == y;
      assert s[i] == y;
      assert forall q :: 0 <= q < |r| ==> r[q] == s[q];
      assert p >= |r|;
    }
  }

  /** Ordering rows with distinct keys: the result is ordered, has the same rows, and
      still has distinct keys. */
  lemma SortKeepsRows<T(!new), K>(rows: seq<T>, le: (T, T) -> bool, key: T -> K)
    requires TotalPreorder(le)
    requires KeysDistinct(rows, key)
    ensures SortedBy(SortBy(rows, le), le)
    ensures KeysDistinct(SortBy(rows, le), key)
    ensures forall x :: x in SortBy(rows, le) <==> x in rows
  {
    var s := SortBy(rows, le);
    SortBySorted(rows, le);
    SortByPermutes(rows, le);
    PermutationKeepsKeysDistinct(rows, s, key);
    forall x ensures x in s <==> x in rows {
      assert x in s <==> x in multiset(s);
      assert x in rows <==> x in multiset(rows);
    }
  }

  /** Dropping rows (HAVING) keeps the remaining keys distinct. */
  lemma {:induction false} FilterKeepsKeysDistinct<T(!new), K>(s: seq<T>, p: T -> bool, key: T -> K)
    requires KeysDistinct(s, key)
    ensures KeysDistinct(Filter(s, p), key)
  {
    if s != [] {
      KeysDistinctTail(s, key);
      FilterKeepsKeysDistinct(s[1..], p, key);
      var rest := Filter(s[1..], p);
      if p(s[0]) {
        var r := [s[0]] + rest;
        forall i, j | 0 <= i < j < |r| ensures key(r[i]) != key(r[j]) {
          if i == 0 {
            assert r[j] == rest[j - 1] && rest[j - 1] in rest;
            FilterMeaning(s[1..], p);
            KeyDiffersFromHead(s, key, r[j]);
          } else {
            assert r[i] == rest[i - 1] && r[j] == rest[j - 1];
          }
        }
        assert Filter(s, p) == r;
      } else {
        assert Filter(s, p) == [] + rest;
      }
    }
  }

  lemma KeysDistinctTail<T, K>(s: seq<T>, key: T -> K)
    requires s != [] && KeysDistinct(s, key)
    ensures KeysDistinct(s[1..], key)
  {
    forall i, j | 0 <= i < j < |s[1..]| ensures key(s[1..][i]) != key(s[1..][j]) {
      assert s[1..][i] == s[i + 1] && s[1..][j] == s[j + 1];
    }
  }

  lemma KeyDiffersFromHead<T, K>(s: seq<T>, key: T -> K, x: T)
    requires s != [] && KeysDistinct(s, key)
    requires x in s[1..]
    ensures key(s[0]) != key(x)
  {
    var k :| 0 <= k < |s[1..]| && s[1..][k] == x;
    assert s[k + 1] == x;
  }
}
