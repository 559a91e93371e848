/**
 * Group-by-key-and-sum, the one aggregation every revenue report is built on.
 *
 * A table projected onto a grouping column and a summed column is a sequence
 * of `Entry` rows. `GroupSum` models `df.groupby(key)[col].sum().reset_index()`
 * with pandas' default `sort=True`: one row per distinct key, keys ascending,
 * each carrying the sum of the amounts with that key.
 */
module Grouping {
  import opened Order

  /** One row: a value of the grouping column and an amount (money in cents). */
  datatype Entry<K> = Entry(key: K, amount: int)

  /** Sum of all amounts. */
  function Total<K>(rows: seq<Entry<K>>): int {
    if rows == [] then 0 else rows[0].amount + Total(rows[1..])
  }

  /** Sum of the amounts of the rows whose key is `k` (0 when there are none). */
  function SumFor<K(==)>(rows: seq<Entry<K>>, k: K): int {
    if rows == [] then 0
    else (if rows[0].key == k then rows[0].amount else 0) + SumFor(rows[1..], k)
  }

  /** The distinct keys present. */
  ghost function KeySet<K>(rows: seq<Entry<K>>): set<K> {
    set i | 0 <= i < |rows| :: rows[i].key
  }

  /** The key column. */
  function KeysOf<K>(rows: seq<Entry<K>>): seq<K> {
    seq(|rows|, i requires 0 <= i < |rows| => rows[i].key)
  }

  /** Both tables have the same key column, row by row. */
  ghost predicate SameKeys<K>(a: seq<Entry<K>>, b: seq<Entry<K>>) {
    |a| == |b| && forall i :: 0 <= i < |a| ==> a[i].key == b[i].key
  }

  /** Keys strictly ascending under `less`. */
  ghost predicate Ascending<K>(rows: seq<Entry<K>>, less: (K, K) -> bool) {
    forall i, j :: 0 <= i < j < |rows| ==> less(rows[i].key, rows[j].key)
  }

  /** No two rows share a key. */
  ghost predicate DistinctKeys<K>(rows: seq<Entry<K>>) {
    forall i, j :: 0 <= i < j < |rows| ==> rows[i].key != rows[j].key
  }

  /**
   * `r` is a summary of `rows`: exactly one row per distinct key of `rows`,
   * carrying the sum of that key's amounts.
   */
  ghost predicate OneRowPerKey<K>(r: seq<Entry<K>>, rows: seq<Entry<K>>) {
    && KeySet(r) == KeySet(rows)
    && DistinctKeys(r)
    && (forall i :: 0 <= i < |r| ==> r[i].amount == SumFor(rows, r[i].key))
  }

  /** Adds one row to a summary kept in ascending key order. */
  function Insert<K(==)>(acc: seq<Entry<K>>, e: Entry<K>, less: (K, K) -> bool): (r: seq<Entry<K>>)
    ensures |acc| <= |r| <= |acc| + 1
  {
    if acc == [] then [e]
    else if acc[0].key == e.key then [Entry(e.key, acc[0].amount + e.amount)] + acc[1..]
    else if less(e.key, acc[0].key) then [e] + acc
    else [acc[0]] + Insert(acc[1..], e, less)
  }

  /** `groupby(key).sum()`: sums the amounts per key, keys ascending under `less`. */
  function GroupSum<K(==)>(rows: seq<Entry<K>>, less: (K, K) -> bool): (r: seq<Entry<K>>)
    ensures |r| <= |rows|
    ensures rows != [] ==> r != []
  {
    if rows == [] then [] else Insert(GroupSum(rows[1..], less), rows[0], less)
  }

  // ---------------------------------------------------------------------
  // Facts about the reference functions

  lemma KeySetCons<K>(rows: seq<Entry<K>>)
    requires rows != []
    ensures KeySet(rows) == {rows[0].key} + KeySet(rows[1..])
  {
    forall k | k in KeySet(rows)
      ensures k in {rows[0].key} + KeySet(rows[1..])
    {
      var i :| 0 <= i < |rows| && rows[i].key == k;
      if i > 0 {
        assert rows[1..][i - 1].key == k;
      }
    }
    forall k | k in KeySet(rows[1..])
      ensures k in KeySet(rows)
    {
      var i :| 0 <= i < |rows[1..]| && rows[1..][i].key == k;
      assert rows[i + 1].key == k;
    }
  }

  lemma KeySetAppend<K>(a: seq<Entry<K>>, b: seq<Entry<K>>)
    ensures KeySet(a + b) == KeySet(a) + KeySet(b)
  {
    forall k | k in KeySet(a + b)
      ensures k in KeySet(a) + KeySet(b)
    {
      var i :| 0 <= i < |a + b| && (a + b)[i].key == k;
      if i >= |a| {
        assert b[i - |a|].key == k;
      }
    }
    forall k | k in KeySet(b)
      ensures k in KeySet(a + b)
    {
      var i :| 0 <= i < |b| && b[i].key == k;
      assert (a + b)[|a| + i].key == k;
    }
    forall k | k in KeySet(a)
      ensures k in KeySet(a + b)
    {
      var i :| 0 <= i < |a| && a[i].key == k;
      assert (a + b)[i].key == k;
    }
  }

  lemma SameKeysKeySet<K>(a: seq<Entry<K>>, b: seq<Entry<K>>)
    requires SameKeys(a, b)
    ensures KeySet(a) == KeySet(b)
  {
    forall k | k in KeySet(a)
      ensures k in KeySet(b)
    {
      var i :| 0 <= i < |a| && a[i].key == k;
      assert b[i].key == k;
    }
    forall k | k in KeySet(b)
      ensures k in KeySet(a)
    {
      var i :| 0 <= i < |b| && b[i].key == k;
      assert a[i].key == k;
    }
  }

  /** A key that does not occur sums to 0. */
  lemma {:induction false} SumForAbsent<K>(rows: seq<Entry<K>>, k: K)
    requires k !in KeySet(rows)
    ensures SumFor(rows, k) == 0
  {
    if rows != [] {
      KeySetCons(rows);
      SumForAbsent(rows[1..], k);
    }
  }

  lemma {:induction false} SumForAppend<K>(a: seq<Entry<K>>, b: seq<Entry<K>>, k: K)
    ensures SumFor(a + b, k) == SumFor(a, k) + SumFor(b, k)
  {
    if a != [] {
      assert (a + b)[1..] == a[1..] + b;
      SumForAppend(a[1..], b, k);
    } else {
      assert a + b == b;
    }
  }

  /** With distinct keys, the sum for a row's key is that row's amount. */
  lemma {:induction false} SumForDistinct<K>(r: seq<Entry<K>>, i: nat)
    requires DistinctKeys(r) && i < |r|
    ensures SumFor(r, r[i].key) == r[i].amount
  {
    KeySetCons(r);
    if i == 0 {
      forall j | 0 <= j < |r[1..]| ensures r[1..][j].key != r[0].key {
        assert r[1..][j] == r[j + 1];
      }
      SumForAbsent(r[1..], r[0].key);
    } else {
      assert r[0].key != r[i].key;
      assert r[1..][i - 1] == r[i];
      SumForDistinct(r[1..], i - 1);
    }
  }

  lemma {:induction false} KeySetSize<K>(r: seq<Entry<K>>)
    ensures |KeySet(r)| <= |r|
  {
    if r != [] {
      KeySetCons(r);
      KeySetSize(r[1..]);
    }
  }

  /** Distinct keys, and only then, give as many keys as rows. */
  lemma {:induction false} DistinctKeysSize<K>(r: seq<Entry<K>>)
    ensures DistinctKeys(r) <==> |KeySet(r)| == |r|
  {
    if r != [] {
      KeySetCons(r);
      KeySetSize(r[1..]);
      DistinctKeysSize(r[1..]);
      var t := r[1..];
      if DistinctKeys(r) {
        assert DistinctKeys(t) by {
          forall i, j | 0 <= i < j < |t| ensures t[i].key != t[j].key {
            assert t[i] == r[i + 1] && t[j] == r[j + 1];
          }
        }
        forall j | 0 <= j < |t| ensures t[j].key != r[0].key {
          assert t[j] == r[j + 1];
        }
      }
      if |KeySet(r)| == |r| {
        assert r[0].key !in KeySet(t);
        forall i, j | 0 <= i < j < |r| ensures r[i].key != r[j].key {
          if i == 0 {
            assert r[j].key == t[j - 1].key;
          } else {
            assert r[i] == t[i - 1] && r[j] == t[j - 1];
          }
        }
      }
    }
  }

  /** Strictly ascending keys are distinct. */
  lemma AscendingDistinct<K(!new)>(r: seq<Entry<K>>, less: (K, K) -> bool)
    requires StrictOrder(less) && Ascending(r, less)
    ensures DistinctKeys(r)
  {
    forall i, j | 0 <= i < j < |r| ensures r[i].key != r[j].key {
      assert less(r[i].key, r[j].key);
    }
  }

  /** A reordering of a summary is still a summary. */
  lemma PermutedSummary<K>(a: seq<Entry<K>>, b: seq<Entry<K>>, rows: seq<Entry<K>>)
    requires multiset(a) == multiset(b) && OneRowPerKey(b, rows)
    ensures OneRowPerKey(a, rows) && |a| == |b|
  {
    forall k | k in KeySet(a) ensures k in KeySet(b) {
      var i :| 0 <= i < |a| && a[i].key == k;
      assert a[i] in multiset(b);
      var j :| 0 <= j < |b| && b[j] == a[i];
    }
    forall k | k in KeySet(b) ensures k in KeySet(a) {
      var j :| 0 <= j < |b| && b[j].key == k;
      assert b[j] in multiset(a);
      var i :| 0 <= i < |a| && a[i] == b[j];
    }
    forall i | 0 <= i < |a| ensures a[i].amount == SumFor(rows, a[i].key) {
      assert a[i] in multiset(b);
      var j :| 0 <= j < |b| && b[j] == a[i];
    }
    assert |a| == |multiset(a)| == |multiset(b)| == |b|;
    DistinctKeysSize(a);
    DistinctKeysSize(b);
  }

  // ---------------------------------------------------------------------
  // What one Insert does

  lemma {:induction false} InsertSumFor<K>(acc: seq<Entry<K>>, e: Entry<K>, less: (K, K) -> bool, k: K)
    ensures SumFor(Insert(acc, e, less), k) == SumFor(acc, k) + (if e.key == k then e.amount else 0)
  {
    var r := Insert(acc, e, less);
    if acc == [] {
    } else if acc[0].key == e.key {
      assert r[1..] == acc[1..];
    } else if less(e.key, acc[0].key) {
      assert r[1..] == acc;
    } else {
      assert r[1..] == Insert(acc[1..], e, less);
      InsertSumFor(acc[1..], e, less, k);
    }
  }

  lemma {:induction false} InsertTotal<K>(acc: seq<Entry<K>>, e: Entry<K>, less: (K, K) -> bool)
    ensures Total(Insert(acc, e, less)) == Total(acc) + e.amount
  {
    var r := Insert(acc, e, less);
    if acc == [] {
    } else if acc[0].key == e.key {
      assert r[1..] == acc[1..];
    } else if less(e.key, acc[0].key) {
      assert r[1..] == acc;
    } else {
      assert r[1..] == Insert(acc[1..], e, less);
      InsertTotal(acc[1..], e, less);
    }
  }

  lemma {:induction false} InsertKeySet<K>(acc: seq<Entry<K>>, e: Entry<K>, less: (K, K) -> bool)
    ensures KeySet(Insert(acc, e, less)) == KeySet(acc) + {e.key}
  {
    var r := Insert(acc, e, less);
    if acc == [] {
      assert r == [e];
      KeySetCons(r);
    } else {
      KeySetCons(r);
      KeySetCons(acc);
      if acc[0].key == e.key {
        assert r[1..] == acc[1..];
      } else if less(e.key, acc[0].key) {
        assert r[1..] == acc;
      } else {
        assert r[1..] == Insert(acc[1..], e, less);
        InsertKeySet(acc[1..], e, less);
      }
    }
  }

  lemma {:induction false} InsertAscending<K(!new)>(acc: seq<Entry<K>>, e: Entry<K>, less: (K, K) -> bool)
    requires StrictOrder(less) && Ascending(acc, less)
    ensures Ascending(Insert(acc, e, less), less)
  {
    var r := Insert(acc, e, less);
    if acc == [] {
    } else if acc[0].key == e.key {
      forall i, j | 0 <= i < j < |r| ensures less(r[i].key, r[j].key) {
        assert r[i].key == acc[i].key && r[j].key == acc[j].key;
      }
    } else if less(e.key, acc[0].key) {
      forall k | 0 <= k < |acc| ensures less(e.key, acc[k].key) {
        if k > 0 {
          assert less(acc[0].key, acc[k].key);
        }
      }
      ConsAscending(e, acc, less);
    } else {
      assert less(acc[0].key, e.key);
      var t := acc[1..];
      assert Ascending(t, less) by {
        forall i, j | 0 <= i < j < |t| ensures less(t[i].key, t[j].key) {
          assert t[i] == acc[i + 1] && t[j] == acc[j + 1];
        }
      }
      InsertAscending(t, e, less);
      var u := Insert(t, e, less);
      forall k | 0 <= k < |u| ensures less(acc[0].key, u[k].key) {
        InsertAbove(acc, e, less, k);
      }
      ConsAscending(acc[0], u, less);
    }
  }

  /** A row whose key is below every key of an ascending `s` can be put in front. */
  lemma ConsAscending<K>(x: Entry<K>, s: seq<Entry<K>>, less: (K, K) -> bool)
    requires Ascending(s, less)
    requires forall k :: 0 <= k < |s| ==> less(x.key, s[k].key)
    ensures Ascending([x] + s, less)
  {
    var r := [x] + s;
    forall i, j | 0 <= i < j < |r| ensures less(r[i].key, r[j].key) {
      assert r[j] == s[j - 1];
      if i > 0 {
        assert r[i] == s[i - 1];
      }
    }
  }

  /** When `e` goes after the head of an ascending `acc`, every key it is inserted among is above that head. */
  lemma InsertAbove<K(!new)>(acc: seq<Entry<K>>, e: Entry<K>, less: (K, K) -> bool, k: nat)
    requires StrictOrder(less) && Ascending(acc, less) && acc != [] && less(acc[0].key, e.key)
    requires k < |Insert(acc[1..], e, less)|
    ensures less(acc[0].key, Insert(acc[1..], e, less)[k].key)
  {
    var t, u := acc[1..], Insert(acc[1..], e, less);
    InsertKeySet(t, e, less);
    assert u[k].key in KeySet(u);
    if u[k].key != e.key {
      var m :| 0 <= m < |t| && t[m].key == u[k].key;
      assert t[m] == acc[m + 1];
    }
  }

  lemma {:induction false} InsertSameKeys<K>(a: seq<Entry<K>>, b: seq<Entry<K>>, x: Entry<K>, y: Entry<K>, less: (K, K) -> bool)
    requires SameKeys(a, b) && x.key == y.key
    ensures SameKeys(Insert(a, x, less), Insert(b, y, less))
  {
    if a != [] {
      assert a[0].key == b[0].key;
      if a[0].key != x.key && !less(x.key, a[0].key) {
        InsertSameKeys(a[1..], b[1..], x, y, less);
        var u, v := Insert(a[1..], x, less), Insert(b[1..], y, less);
        assert Insert(a, x, less) == [a[0]] + u;
        assert Insert(b, y, less) == [b[0]] + v;
      }
    }
  }

  // ---------------------------------------------------------------------
  // What GroupSum computes

  /** Conservation: grouping neither loses nor adds revenue, key by key. */
  lemma {:induction false} GroupSumFor<K>(rows: seq<Entry<K>>, less: (K, K) -> bool, k: K)
    ensures SumFor(GroupSum(rows, less), k) == SumFor(rows, k)
  {
    if rows != [] {
      GroupSumFor(rows[1..], less, k);
      InsertSumFor(GroupSum(rows[1..], less), rows[0], less, k);
    }
  }

  /** Conservation: the row totals add up to the total of the input. */
  lemma {:induction false} GroupTotal<K>(rows: seq<Entry<K>>, less: (K, K) -> bool)
    ensures Total(GroupSum(rows, less)) == Total(rows)
  {
    if rows != [] {
      GroupTotal(rows[1..], less);
      InsertTotal(GroupSum(rows[1..], less), rows[0], less);
    }
  }

  lemma {:induction false} GroupKeySet<K>(rows: seq<Entry<K>>, less: (K, K) -> bool)
    ensures KeySet(GroupSum(rows, less)) == KeySet(rows)
  {
    if rows != [] {
      GroupKeySet(rows[1..], less);
      InsertKeySet(GroupSum(rows[1..], less), rows[0], less);
      KeySetCons(rows);
    }
  }

  lemma {:induction false} GroupAscending<K(!new)>(rows: seq<Entry<K>>, less: (K, K) -> bool)
    requires StrictOrder(less)
    ensures Ascending(GroupSum(rows, less), less)
  {
    if rows != [] {
      GroupAscending(rows[1..], less);
      InsertAscending(GroupSum(rows[1..], less), rows[0], less);
    }
  }

  /**
   * The key column of a grouping depends only on the key column of its input;
   * that is why two columns of one table, grouped separately, line up.
   */
  lemma {:induction false} GroupSameKeys<K>(a: seq<Entry<K>>, b: seq<Entry<K>>, less: (K, K) -> bool)
    requires SameKeys(a, b)
    ensures SameKeys(GroupSum(a, less), GroupSum(b, less))
  {
    if a != [] {
      assert SameKeys(a[1..], b[1..]);
      GroupSameKeys(a[1..], b[1..], less);
      InsertSameKeys(GroupSum(a[1..], less), GroupSum(b[1..], less), a[0], b[0], less);
    }
  }

  /**
   * `groupby(key).sum()` yields one row per distinct key, in ascending key
   * order, each with its key's sum, and the row totals add up to the total.
   */
  lemma GroupSumSummarizes<K(!new)>(rows: seq<Entry<K>>, less: (K, K) -> bool)
    requires StrictOrder(less)
    ensures Ascending(GroupSum(rows, less), less)
    ensures OneRowPerKey(GroupSum(rows, less), rows)
    ensures |GroupSum(rows, less)| == |KeySet(rows)|
    ensures Total(GroupSum(rows, less)) == Total(rows)
  {
    var r := GroupSum(rows, less);
    GroupAscending(rows, less);
    AscendingDistinct(r, less);
    GroupKeySet(rows, less);
    GroupTotal(rows, less);
    DistinctKeysSize(r);
    forall i | 0 <= i < |r| ensures r[i].amount == SumFor(rows, r[i].key) {
      SumForDistinct(r, i);
      GroupSumFor(rows, less, r[i].key);
    }
  }

  // ---------------------------------------------------------------------
  // A column filled with 0, as `df.assign(col=0)` adds it

  /** The same keys, every amount 0. */
  function Zeroed<K>(rows: seq<Entry<K>>): (r: seq<Entry<K>>)
    ensures |r| == |rows|
    ensures forall i :: 0 <= i < |r| ==> r[i].key == rows[i].key && r[i].amount == 0
  {
    seq(|rows|, i requires 0 <= i < |rows| => Entry(rows[i].key, 0))
  }

  lemma {:induction false} ZeroedSums<K>(rows: seq<Entry<K>>, k: K)
    ensures SameKeys(rows, Zeroed(rows))
    ensures KeySet(Zeroed(rows)) == KeySet(rows)
    ensures SumFor(Zeroed(rows), k) == 0
  {
    SameKeysKeySet(rows, Zeroed(rows));
    if rows != [] {
      assert Zeroed(rows)[1..] == Zeroed(rows[1..]);
      ZeroedSums(rows[1..], k);
    }
  }
}

