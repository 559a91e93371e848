/**
 * `merge(roster[["player_id", "first_name", "last_name"]], on="player_id")`,
 * the inner join of a per-player table with the roster.
 *
 * The join is given as the list of matched row positions `(i, q)`: left row
 * `i` pairs with roster row `q` exactly when their player ids agree. Left
 * rows with no roster entry are dropped; a left row matching several roster
 * rows appears once per match. As in pandas' inner merge, the result follows
 * the order of the left rows, and matches of one left row follow roster order.
 */
module RosterJoin {
  import opened Tables

  /** `p` comes before `q` in left-major order. */
  predicate PairBefore(p: (nat, nat), q: (nat, nat)) {
    p.0 < q.0 || (p.0 == q.0 && p.1 < q.1)
  }

  /** The roster rows from position `from` on whose id is `id`, each paired with left row `i`. */
  function MatchesFrom(i: nat, id: int, roster: seq<RosterEntry>, from: nat): (ps: seq<(nat, nat)>)
    requires from <= |roster|
    ensures forall n :: 0 <= n < |ps| ==>
      ps[n].0 == i && from <= ps[n].1 < |roster| && roster[ps[n].1].playerId == id
    ensures forall m, n :: 0 <= m < n < |ps| ==> ps[m].1 < ps[n].1
    ensures forall q :: from <= q < |roster| && roster[q].playerId == id ==> (i, q) in ps
    decreases |roster| - from
  {
    if from == |roster| then []
    else
      var rest := MatchesFrom(i, id, roster, from + 1);
      if roster[from].playerId == id then [(i, from)] + rest else rest
  }

  /** The matches of the left rows from position `from` on. */
  function JoinFrom(keys: seq<int>, roster: seq<RosterEntry>, from: nat): (ps: seq<(nat, nat)>)
    requires from <= |keys|
    ensures forall n :: 0 <= n < |ps| ==>
      from <= ps[n].0 < |keys| && ps[n].1 < |roster| && keys[ps[n].0] == roster[ps[n].1].playerId
    ensures forall m, n :: 0 <= m < n < |ps| ==> PairBefore(ps[m], ps[n])
    ensures forall i, q :: from <= i < |keys| && 0 <= q < |roster| && keys[i] == roster[q].playerId ==> (i, q) in ps
    decreases |keys| - from
  {
    if from == |keys| then []
    else
      var here := MatchesFrom(from, keys[from], roster, 0);
      var rest := JoinFrom(keys, roster, from + 1);
      var ps := here + rest;
      forall m, n | 0 <= m < n < |ps| ensures PairBefore(ps[m], ps[n]) {
        if n < |here| {
          assert ps[m] == here[m] && ps[n] == here[n];
        } else if |here| <= m {
          assert ps[m] == rest[m - |here|] && ps[n] == rest[n - |here|];
        } else {
          assert ps[m] == here[m] && ps[n] == rest[n - |here|];
        }
      }
      forall i, q | from <= i < |keys| && 0 <= q < |roster| && keys[i] == roster[q].playerId
        ensures (i, q) in ps
      {
        if i == from {
          assert (i, q) in here;
        } else {
          assert (i, q) in rest;
        }
      }
      ps
  }

  /**
   * The inner join of a left table, given by its `player_id` column `keys`,
   * with the roster: every matched pair, and nothing else, in left-major order.
   */
  function Join(keys: seq<int>, roster: seq<RosterEntry>): (ps: seq<(nat, nat)>)
    ensures forall n :: 0 <= n < |ps| ==>
      ps[n].0 < |keys| && ps[n].1 < |roster| && keys[ps[n].0] == roster[ps[n].1].playerId
    ensures forall i, q :: 0 <= i < |keys| && 0 <= q < |roster| && keys[i] == roster[q].playerId ==> (i, q) in ps
    ensures forall m, n :: 0 <= m < n < |ps| ==> PairBefore(ps[m], ps[n])
  {
    JoinFrom(keys, roster, 0)
  }

  /** The roster positions a list of pairs uses. */
  ghost function RosterPositions(ps: seq<(nat, nat)>): set<nat> {
    set n | 0 <= n < |ps| :: ps[n].1
  }

  /** Pairs that never share a roster position use as many positions as there are pairs. */
  lemma {:induction false} RosterPositionsSize(ps: seq<(nat, nat)>)
    requires forall m, n :: 0 <= m < n < |ps| ==> ps[m].1 != ps[n].1
    ensures |RosterPositions(ps)| == |ps|
  {
    if ps != [] {
      var t := ps[1..];
      assert forall m, n :: 0 <= m < n < |t| ==> t[m].1 != t[n].1 by {
        forall m, n | 0 <= m < n < |t| ensures t[m].1 != t[n].1 {
          assert t[m] == ps[m + 1] && t[n] == ps[n + 1];
        }
      }
      RosterPositionsSize(t);
      RosterPositionsCons(ps);
      forall n | 0 <= n < |t| ensures t[n].1 != ps[0].1 {
        assert t[n] == ps[n + 1];
      }
      assert ps[0].1 !in RosterPositions(t);
    }
  }

  /** The positions of a non-empty list: its first pair's position and those of the rest. */
  lemma RosterPositionsCons(ps: seq<(nat, nat)>)
    requires ps != []
    ensures RosterPositions(ps) == {ps[0].1} + RosterPositions(ps[1..])
  {
    var t := ps[1..];
    forall q | q in RosterPositions(ps) ensures q in {ps[0].1} + RosterPositions(t) {
      var n :| 0 <= n < |ps| && ps[n].1 == q;
      if n > 0 {
        assert t[n - 1] == ps[n];
      }
    }
    forall q | q in RosterPositions(t) ensures q in RosterPositions(ps) {
      var n :| 0 <= n < |t| && t[n].1 == q;
      assert t[n] == ps[n + 1];
    }
  }

  /**
   * When the left keys are distinct, the inner merge uses each roster row at
   * most once.
   */
  lemma JoinUsesRosterOnce(keys: seq<int>, roster: seq<RosterEntry>)
    requires forall i, j :: 0 <= i < j < |keys| ==> keys[i] != keys[j]
    ensures var ps := Join(keys, roster);
      forall m, n :: 0 <= m < n < |ps| ==> ps[m].1 != ps[n].1
  {
    var ps := Join(keys, roster);
    forall m, n | 0 <= m < n < |ps| ensures ps[m].1 != ps[n].1 {
      assert PairBefore(ps[m], ps[n]);
      if ps[m].0 != ps[n].0 {
        assert keys[ps[m].0] != keys[ps[n].0];
      }
    }
  }
}
