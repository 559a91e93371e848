/**
 * Ranking: `sort_values(col, ascending=False)`, `head(n)` and `idxmax`.
 *
 * pandas' default sort is not stable, so what the reports rely on is only
 * that the result is a permutation of the input ordered non-increasingly by
 * the sort column. `SortDesc` is one such sort (an insertion sort); every
 * contract about it is stated in those two terms.
 */
module Ranking {

  /** Non-increasing by `score`. */
  ghost predicate SortedDesc<T>(s: seq<T>, score: T -> int) {
    forall i, j :: 0 <= i < j < |s| ==> score(s[j]) <= score(s[i])
  }

  /** The sort column of `s`. */
  function Scores<T>(s: seq<T>, score: T -> int): seq<int> {
    seq(|s|, i requires 0 <= i < |s| => score(s[i]))
  }

  /** Places `x` before the first element that does not exceed it. */
  function InsertDesc<T>(x: T, s: seq<T>, score: T -> int): (r: seq<T>)
    ensures multiset(r) == multiset(s) + multiset{x}
    ensures |r| == |s| + 1
  {
    if s == [] || score(s[0]) <= score(x) then [x] + s
    else
      assert s == [s[0]] + s[1..];
      [s[0]] + InsertDesc(x, s[1..], score)
  }

  lemma {:induction false} InsertDescSorted<T>(x: T, s: seq<T>, score: T -> int)
    requires SortedDesc(s, score)
    ensures SortedDesc(InsertDesc(x, s, score), score)
  {
    if s == [] || score(s[0]) <= score(x) {
      forall k | 0 <= k < |s| ensures score(s[k]) <= score(x) {
        if k > 0 {
          assert score(s[k]) <= score(s[0]);
        }
      }
      ConsSorted(x, s, score);
    } else {
      var t := s[1..];
      assert SortedDesc(t, score) by {
        forall i, j | 0 <= i < j < |t| ensures score(t[j]) <= score(t[i]) {
          assert t[i] == s[i + 1] && t[j] == s[j + 1];
        }
      }
      InsertDescSorted(x, t, score);
      var u := InsertDesc(x, t, score);
      forall k | 0 <= k < |u| ensures score(u[k]) <= score(s[0]) {
        InsertDescBelow(x, s, score, k);
      }
      ConsSorted(s[0], u, score);
    }
  }

  /** Putting an element that no element of a sorted `s` outranks in front keeps it sorted. */
  lemma ConsSorted<T>(x: T, s: seq<T>, score: T -> int)
    requires SortedDesc(s, score)
    requires forall k :: 0 <= k < |s| ==> score(s[k]) <= score(x)
    ensures SortedDesc([x] + s, score)
  {
    var r := [x] + s;
    forall i, j | 0 <= i < j < |r| ensures score(r[j]) <= score(r[i]) {
      assert r[j] == s[j - 1];
      if i > 0 {
        assert r[i] == s[i - 1];
      }
    }
  }

  /** When `x` goes after the head of a sorted `s`, nothing it is inserted among outranks that head. */
  lemma InsertDescBelow<T>(x: T, s: seq<T>, score: T -> int, k: nat)
    requires SortedDesc(s, score) && s != [] && score(x) < score(s[0])
    requires k < |InsertDesc(x, s[1..], score)|
    ensures score(InsertDesc(x, s[1..], score)[k]) <= score(s[0])
  {
    var t, u := s[1..], InsertDesc(x, s[1..], score);
    assert u[k] in multiset(u);
    if u[k] != x {
      assert u[k] in multiset(t);
      var m :| 0 <= m < |t| && t[m] == u[k];
      assert t[m] == s[m + 1];
    }
  }

  /** `sort_values(score, ascending=False)`: a permutation, non-increasing by `score`. */
  function SortDesc<T>(s: seq<T>, score: T -> int): (r: seq<T>)
    ensures multiset(r) == multiset(s)
    ensures |r| == |s|
    ensures SortedDesc(r, score)
  {
    if s == [] then []
    else
      var t := SortDesc(s[1..], score);
      InsertDescSorted(s[0], t, score);
      assert s == [s[0]] + s[1..];
      InsertDesc(s[0], t, score)
  }

  /** `head(n)`: the first `n` rows, or all of them when there are fewer. */
  function Head<T>(s: seq<T>, n: nat): (r: seq<T>)
    ensures |r| == if |s| < n then |s| else n
    ensures r == s[..|r|]
  {
    if |s| <= n then s else s[..n]
  }

  /** Sorting keeps exactly the same elements. */
  lemma SortDescMembers<T>(s: seq<T>, score: T -> int)
    ensures forall x :: x in SortDesc(s, score) <==> x in s
  {
    var r := SortDesc(s, score);
    forall x ensures x in r <==> x in s {
      assert x in r <==> x in multiset(r);
      assert x in s <==> x in multiset(s);
    }
  }

  /** A prefix of a non-increasing permutation of `s`. */
  lemma PrefixOfSorted<T>(sorted: seq<T>, s: seq<T>, score: T -> int, m: nat)
    requires multiset(sorted) == multiset(s) && SortedDesc(sorted, score) && m <= |sorted|
    ensures var top := sorted[..m];
      && SortedDesc(top, score)
      && multiset(top) <= multiset(s)
      && (forall i :: 0 <= i < |top| ==> top[i] in s)
      && (forall x :: x in s && x !in top ==> forall i :: 0 <= i < |top| ==> score(x) <= score(top[i]))
  {
    var top := sorted[..m];
    assert sorted == top + sorted[m..];
    assert multiset(sorted) == multiset(top) + multiset(sorted[m..]);
    forall i | 0 <= i < |top| ensures top[i] in s {
      assert top[i] == sorted[i] && sorted[i] in multiset(sorted);
    }
    forall x, i | x in s && x !in top && 0 <= i < |top| ensures score(x) <= score(top[i]) {
      assert x in multiset(sorted);
      var k :| 0 <= k < |sorted| && sorted[k] == x;
      assert top[i] == sorted[i];
      assert forall p :: 0 <= p < m ==> top[p] == sorted[p];
      assert m <= k;
    }
  }

  /**
   * `sort_values(ascending=False).head(n)`: min(n, |s|) elements of `s`,
   * non-increasing, and no element left out scores above one kept.
   */
  lemma HeadOfSortDesc<T>(s: seq<T>, score: T -> int, n: nat)
    ensures var top := Head(SortDesc(s, score), n);
      && |top| == (if |s| < n then |s| else n)
      && SortedDesc(top, score)
      && multiset(top) <= multiset(s)
      && (forall i :: 0 <= i < |top| ==> top[i] in s)
      && (forall x :: x in s && x !in top ==> forall i :: 0 <= i < |top| ==> score(x) <= score(top[i]))
  {
    var sorted := SortDesc(s, score);
    assert |sorted| == |multiset(sorted)| == |s|;
    var m := if |s| < n then |s| else n;
    assert Head(sorted, n) == sorted[..m];
    PrefixOfSorted(sorted, s, score, m);
  }

  /** The same insertion on the sort column alone. */
  function InsertScore(v: int, xs: seq<int>): seq<int> {
    if xs == [] || xs[0] <= v then [v] + xs else [xs[0]] + InsertScore(v, xs[1..])
  }

  /** The same sort on the sort column alone. */
  function SortScores(xs: seq<int>): seq<int> {
    if xs == [] then [] else InsertScore(xs[0], SortScores(xs[1..]))
  }

  lemma {:induction false} InsertDescScores<T>(x: T, s: seq<T>, score: T -> int)
    ensures Scores(InsertDesc(x, s, score), score) == InsertScore(score(x), Scores(s, score))
  {
    var xs := Scores(s, score);
    if s == [] || score(s[0]) <= score(x) {
      assert Scores([x] + s, score) == [score(x)] + xs;
    } else {
      InsertDescScores(x, s[1..], score);
      assert xs[0] == score(s[0]) && xs[1..] == Scores(s[1..], score);
      assert Scores([s[0]] + InsertDesc(x, s[1..], score), score) ==
        [score(s[0])] + Scores(InsertDesc(x, s[1..], score), score);
    }
  }

  /** The sorted sort column depends only on the sort column. */
  lemma {:induction false} SortDescScores<T>(s: seq<T>, score: T -> int)
    ensures Scores(SortDesc(s, score), score) == SortScores(Scores(s, score))
  {
    if s != [] {
      var t := SortDesc(s[1..], score);
      var xs := Scores(s, score);
      assert xs[0] == score(s[0]) && xs[1..] == Scores(s[1..], score);
      SortDescScores(s[1..], score);
      InsertDescScores(s[0], t, score);
      assert SortDesc(s, score) == InsertDesc(s[0], t, score);
      assert SortScores(xs) == InsertScore(score(s[0]), SortScores(Scores(s[1..], score)));
    }
  }

  /**
   * Sorting two tables whose sort columns agree yields the same sort column,
   * whatever order ties are left in.
   */
  lemma SameRanking<T, U>(a: seq<T>, fa: T -> int, b: seq<U>, fb: U -> int)
    requires Scores(a, fa) == Scores(b, fb)
    ensures Scores(SortDesc(a, fa), fa) == Scores(SortDesc(b, fb), fb)
  {
    SortDescScores(a, fa);
    SortDescScores(b, fb);
  }

  /**
   * The first `n` rows of one such sort line up with the other sort: same
   * length bound, same sort column.
   */
  lemma HeadSameRanking<T, U>(a: seq<T>, fa: T -> int, b: seq<U>, fb: U -> int, n: nat)
    requires Scores(a, fa) == Scores(b, fb)
    ensures var top, sb := Head(SortDesc(a, fa), n), SortDesc(b, fb);
      && |top| == (if |sb| < n then |sb| else n)
      && forall i :: 0 <= i < |top| ==> fa(top[i]) == fb(sb[i])
  {
    var sa, sb := SortDesc(a, fa), SortDesc(b, fb);
    SameRanking(a, fa, b, fb);
    assert |sa| == |Scores(sa, fa)| == |Scores(sb, fb)| == |sb|;
    forall i | 0 <= i < |Head(sa, n)| ensures fa(Head(sa, n)[i]) == fb(sb[i]) {
      assert Head(sa, n)[i] == sa[i];
      assert Scores(sa, fa)[i] == Scores(sb, fb)[i];
    }
  }

  /**
   * `idxmax`: the position of the first maximum of a non-empty column
   * (pandas raises on an empty one).
   */
  function ArgMax(xs: seq<int>): (m: nat)
    requires |xs| > 0
    ensures m < |xs|
    ensures forall j :: 0 <= j < |xs| ==> xs[j] <= xs[m]
    ensures forall j :: 0 <= j < m ==> xs[j] < xs[m]
  {
    if |xs| == 1 then 0
    else
      var m := ArgMax(xs[..|xs| - 1]);
      if xs[m] < xs[|xs| - 1] then |xs| - 1 else m
  }

  /**
   * The row `idxmax` picks in a table ordered by a strictly ascending `key`:
   * it scores at least as high as every row, and strictly higher than every
   * row with a smaller key.
   */
  lemma ArgMaxRow<T>(s: seq<T>, score: T -> int, key: T -> int)
    requires |s| > 0
    requires forall i, j :: 0 <= i < j < |s| ==> key(s[i]) < key(s[j])
    ensures var best := s[ArgMax(Scores(s, score))];
      && (forall x :: x in s ==> score(x) <= score(best))
      && (forall x :: x in s && key(x) < key(best) ==> score(x) < score(best))
  {
    var xs := Scores(s, score);
    var k := ArgMax(xs);
    forall x | x in s ensures score(x) <= score(s[k]) && (key(x) < key(s[k]) ==> score(x) < score(s[k])) {
      var i :| 0 <= i < |s| && s[i] == x;
      assert xs[i] == score(x) && xs[k] == score(s[k]);
      if key(x) < key(s[k]) {
        assert i < k;
      }
    }
  }
}
