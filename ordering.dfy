/**
 * A stable descending sort by a two-level key: what Kotlin's
 * `sortWith(compareByDescending { a }.thenByDescending { b })` and
 * `sortByDescending { a }` do to a list (both are stable sorts).
 */
module Ordering {

  /** A sort key compared lexicographically: `major` first, then `minor`. */
  datatype Rank = Rank(major: int, minor: int)

  /** `a` may come before `b` in a descending order. */
  predicate RankAtLeast(a: Rank, b: Rank) {
    a.major > b.major || (a.major == b.major && a.minor >= b.minor)
  }

  /** Every element ranks at least as high as every later one. */
  ghost predicate SortedDesc<T>(s: seq<T>, rank: T -> Rank) {
    forall i, j :: 0 <= i < j < |s| ==> RankAtLeast(rank(s[i]), rank(s[j]))
  }

  /** The elements of rank `k`, in their order in `s`. */
  function WithRank<T>(s: seq<T>, rank: T -> Rank, k: Rank): seq<T> {
    if s == [] then []
    else WithRank(s[..|s| - 1], rank, k) + (if rank(s[|s| - 1]) == k then [s[|s| - 1]] else [])
  }

  /** Dropping the head keeps a sequence sorted. */
  lemma SortedTail<T>(s: seq<T>, rank: T -> Rank)
    requires SortedDesc(s, rank) && s != []
    ensures SortedDesc(s[1..], rank)
  {
    forall i, j | 0 <= i < j < |s[1..]|
      ensures RankAtLeast(rank(s[1..][i]), rank(s[1..][j]))
    {
      assert s[1..][i] == s[i + 1] && s[1..][j] == s[j + 1];
    }
  }

  /** A head that ranks at least as high as the head of a sorted sequence
      keeps it sorted. */
  lemma {:induction false} SortedCons<T>(y: T, t: seq<T>, rank: T -> Rank)
    requires SortedDesc(t, rank) && (t != [] ==> RankAtLeast(rank(y), rank(t[0])))
    ensures SortedDesc([y] + t, rank)
  {
    var r := [y] + t;
    forall i, j | 0 <= i < j < |r|
      ensures RankAtLeast(rank(r[i]), rank(r[j]))
    {
      assert r[j] == t[j - 1];
      if i == 0 {
        if j > 1 {
          assert RankAtLeast(rank(t[0]), rank(t[j - 1]));
        }
      } else {
        assert r[i] == t[i - 1];
      }
    }
  }

  /** Puts `x` after every element that ranks at least as high, so that
      elements of equal rank keep their arrival order. */
  function Insert<T>(x: T, s: seq<T>, rank: T -> Rank): (r: seq<T>)
    requires SortedDesc(s, rank)
    ensures SortedDesc(r, rank)
    ensures multiset(r) == multiset(s) + multiset{x}
    ensures |r| == |s| + 1
    ensures r[0] == x || (s != [] && r[0] == s[0])
  {
    if s == [] then [x]
    else if RankAtLeast(rank(s[0]), rank(x)) then
      SortedTail(s, rank);
      var tail := Insert(x, s[1..], rank);
      assert RankAtLeast(rank(s[0]), rank(tail[0])) by {
        if tail[0] != x {
          assert tail[0] == s[1];
        }
      }
      SortedCons(s[0], tail, rank);
      assert s == [s[0]] + s[1..];
      [s[0]] + tail
    else
      SortedCons(x, s, rank);
      [x] + s
  }

  /** Insertion sort in arrival order. */
  function SortDesc<T>(s: seq<T>, rank: T -> Rank): (r: seq<T>)
    ensures SortedDesc(r, rank)
    ensures multiset(r) == multiset(s)
    ensures |r| == |s|
  {
    if s == [] then []
    else
      assert s == s[..|s| - 1] + [s[|s| - 1]];
      Insert(s[|s| - 1], SortDesc(s[..|s| - 1], rank), rank)
  }

  lemma {:induction false} WithRankConcat<T>(a: seq<T>, b: seq<T>, rank: T -> Rank, k: Rank)
    ensures WithRank(a + b, rank, k) == WithRank(a, rank, k) + WithRank(b, rank, k)
  {
    if b != [] {
      WithRankConcat(a, b[..|b| - 1], rank, k);
      assert (a + b)[..|a + b| - 1] == a + b[..|b| - 1];
    } else {
      assert a + b == a;
    }
  }

  /** A sorted sequence whose head ranks strictly below `k` has no element of rank `k`. */
  lemma {:induction false} WithRankBelow<T>(s: seq<T>, rank: T -> Rank, k: Rank)
    requires SortedDesc(s, rank) && s != [] && !RankAtLeast(rank(s[0]), k)
    ensures WithRank(s, rank, k) == []
  {
    if |s| > 1 {
      WithRankBelow(s[..|s| - 1], rank, k);
    }
    assert rank(s[|s| - 1]) != k by {
      if |s| > 1 { assert RankAtLeast(rank(s[0]), rank(s[|s| - 1])); }
    }
  }

  /** Inserting `x` appends it to the elements of its own rank and leaves
      every other rank's elements as they were. */
  lemma {:induction false} InsertStable<T>(x: T, s: seq<T>, rank: T -> Rank, k: Rank)
    requires SortedDesc(s, rank)
    ensures WithRank(Insert(x, s, rank), rank, k) == WithRank(s, rank, k) + (if rank(x) == k then [x] else [])
  {
    if s == [] {
      assert [x] == [] + [x];
    } else if RankAtLeast(rank(s[0]), rank(x)) {
      SortedTail(s, rank);
      var tail := Insert(x, s[1..], rank);
      assert Insert(x, s, rank) == [s[0]] + tail;
      InsertStable(x, s[1..], rank, k);
      WithRankConcat([s[0]], tail, rank, k);
      assert s == [s[0]] + s[1..];
      WithRankConcat([s[0]], s[1..], rank, k);
    } else {
      assert Insert(x, s, rank) == [x] + s;
      WithRankConcat([x], s, rank, k);
      if rank(x) == k {
        WithRankBelow(s, rank, k);
      }
    }
  }

  /** The sort is stable: for every rank, the elements of that rank appear in
      the result in the order they had in the input. */
  lemma {:induction false} SortDescStable<T>(s: seq<T>, rank: T -> Rank, k: Rank)
    ensures WithRank(SortDesc(s, rank), rank, k) == WithRank(s, rank, k)
  {
    if s != [] {
      SortDescStable(s[..|s| - 1], rank, k);
      InsertStable(s[|s| - 1], SortDesc(s[..|s| - 1], rank), rank, k);
    }
  }
}
