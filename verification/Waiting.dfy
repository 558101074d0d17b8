/** Units that wait for one another's names: an upsert is refused while another
    unit has the name it wants, so renames can block each other. */
module Waiting {
  import opened Store
  import opened EventLaws

  /** Listed unit `x` wants the name that listed unit `y` still has. */
  predicate Waits(units: map<UnitId, Unit>, goal: Listing, x: UnitId, y: UnitId) {
    x in goal && y in goal && y != x && y in units && units[y].fields.name == goal[x].name
  }

  predicate WaitsWithin(units: map<UnitId, Unit>, goal: Listing, x: UnitId, stuck: set<UnitId>) {
    exists y | y in stuck :: Waits(units, goal, x, y)
  }

  /** Every unit of `stuck` waits for another unit of `stuck`. */
  predicate Deadlock(units: map<UnitId, Unit>, goal: Listing, stuck: set<UnitId>) {
    stuck != {} && forall x {:trigger WaitsWithin(units, goal, x, stuck)} | x in stuck ::
        WaitsWithin(units, goal, x, stuck)
  }

  predicate WaitsForNext(units: map<UnitId, Unit>, goal: Listing, cycle: seq<UnitId>, i: nat)
    requires i < |cycle|
  {
    Waits(units, goal, cycle[i], cycle[if i + 1 < |cycle| then i + 1 else 0])
  }

  /** A cycle of renames: each unit wants the name the next one has. */
  predicate RenameCycle(units: map<UnitId, Unit>, goal: Listing, cycle: seq<UnitId>) {
    cycle != [] && forall i | 0 <= i < |cycle| :: WaitsForNext(units, goal, cycle, i)
  }

  ghost predicate NoCycle(units: map<UnitId, Unit>, goal: Listing) {
    forall cycle: seq<UnitId> :: !RenameCycle(units, goal, cycle)
  }

  /** Each unit of the chain waits for the next, the last for an earlier one. */
  predicate EndsInCycle(units: map<UnitId, Unit>, goal: Listing, chain: seq<UnitId>) {
    && chain != []
    && (forall i, j | 0 <= i && j == i + 1 < |chain| :: Waits(units, goal, chain[i], chain[j]))
    && exists j | 0 <= j < |chain| :: Waits(units, goal, chain[|chain| - 1], chain[j])
  }

  /** The unit's chain of waiting ends in a cycle. */
  ghost predicate Stuck(units: map<UnitId, Unit>, goal: Listing, x: UnitId) {
    exists chain: seq<UnitId> :: EndsInCycle(units, goal, chain) && chain[0] == x
  }

  lemma CycleIsDeadlock(units: map<UnitId, Unit>, goal: Listing, cycle: seq<UnitId>)
    requires RenameCycle(units, goal, cycle)
    ensures Deadlock(units, goal, set x | x in cycle)
  {
    var stuck := set x | x in cycle;
    assert cycle[0] in stuck;
    forall x | x in stuck ensures WaitsWithin(units, goal, x, stuck) {
      var i :| 0 <= i < |cycle| && cycle[i] == x;
      assert WaitsForNext(units, goal, cycle, i);
      assert cycle[if i + 1 < |cycle| then i + 1 else 0] in stuck;
    }
  }

  /** A walk of `n` steps along the waiting units. */
  lemma {:induction false} Walk(units: map<UnitId, Unit>, goal: Listing, stuck: set<UnitId>, x: UnitId, n: nat)
    returns (path: seq<UnitId>)
    requires Deadlock(units, goal, stuck) && x in stuck
    ensures |path| == n + 1 && path[0] == x && forall i | 0 <= i <= n :: path[i] in stuck
    ensures forall i, j | 0 <= i && j == i + 1 <= n :: Waits(units, goal, path[i], path[j])
  {
    path := [x];
    if n > 0 {
      var init := Walk(units, goal, stuck, x, n - 1);
      assert WaitsWithin(units, goal, init[n - 1], stuck);
      var y :| y in stuck && Waits(units, goal, init[n - 1], y);
      path := init + [y];
    }
  }

  lemma {:induction false} Pigeonhole(path: seq<UnitId>, holes: set<UnitId>) returns (i: nat, j: nat)
    requires |path| > |holes| && forall k | 0 <= k < |path| :: path[k] in holes
    ensures i < j < |path| && path[i] == path[j]
    decreases |path|
  {
    var n := |path| - 1;
    if k :| 0 <= k < n && path[k] == path[n] {
      i, j := k, n;
    } else {
      assert path[n] in holes;
      assert |holes - {path[n]}| == |holes| - 1;
      i, j := Pigeonhole(path[..n], holes - {path[n]});
    }
  }

  lemma DeadlockHasCycle(units: map<UnitId, Unit>, goal: Listing, stuck: set<UnitId>) returns (cycle: seq<UnitId>)
    requires Deadlock(units, goal, stuck)
    ensures RenameCycle(units, goal, cycle)
  {
    var x :| x in stuck;
    var path := Walk(units, goal, stuck, x, |stuck|);
    var i, j := Pigeonhole(path, stuck);
    cycle := path[i..j];
    forall k | 0 <= k < |cycle| ensures WaitsForNext(units, goal, cycle, k) {
      assert Waits(units, goal, path[i + k], path[i + k + 1]);
    }
  }

  /** Units that all wait for one another exist exactly if there is a cycle. */
  lemma DeadlockIffCycle(units: map<UnitId, Unit>, goal: Listing)
    ensures (exists stuck :: Deadlock(units, goal, stuck)) <==> !NoCycle(units, goal)
  {
    if stuck :| Deadlock(units, goal, stuck) {
      var cycle := DeadlockHasCycle(units, goal, stuck);
    }
    if cycle: seq<UnitId> :| RenameCycle(units, goal, cycle) {
      CycleIsDeadlock(units, goal, cycle);
    }
  }

  lemma ChainIsDeadlock(units: map<UnitId, Unit>, goal: Listing, chain: seq<UnitId>)
    requires EndsInCycle(units, goal, chain)
    ensures Deadlock(units, goal, set x | x in chain)
  {
    var stuck := set x | x in chain;
    assert chain[0] in stuck;
    forall x | x in stuck ensures WaitsWithin(units, goal, x, stuck) {
      var i :| 0 <= i < |chain| && chain[i] == x;
      if i + 1 < |chain| {
        assert chain[i + 1] in stuck && Waits(units, goal, chain[i], chain[i + 1]);
      } else {
        var j :| 0 <= j < |chain| && Waits(units, goal, chain[|chain| - 1], chain[j]);
        assert chain[j] in stuck;
      }
    }
  }

  /** A unit is among some that all wait for one another exactly if its chain of
      waiting ends in a cycle. */
  lemma StuckIffDeadlocked(units: map<UnitId, Unit>, goal: Listing, x: UnitId)
    ensures Stuck(units, goal, x) <==> exists stuck :: Deadlock(units, goal, stuck) && x in stuck
  {
    if chain: seq<UnitId> :| EndsInCycle(units, goal, chain) && chain[0] == x {
      ChainIsDeadlock(units, goal, chain);
      assert x in set y | y in chain;
    }
    if stuck :| Deadlock(units, goal, stuck) && x in stuck {
      var path := Walk(units, goal, stuck, x, |stuck|);
      var i, j := Pigeonhole(path, stuck);
      var chain := path[..j];
      assert Waits(units, goal, path[j - 1], path[j]) && path[j] == chain[i];
      assert EndsInCycle(units, goal, chain) && chain[0] == x;
    }
  }

  lemma SomeStuckIffCycle(units: map<UnitId, Unit>, goal: Listing)
    ensures (exists x :: Stuck(units, goal, x)) <==> !NoCycle(units, goal)
  {
    DeadlockIffCycle(units, goal);
    if x :| Stuck(units, goal, x) {
      StuckIffDeadlocked(units, goal, x);
    }
    if stuck :| Deadlock(units, goal, stuck) {
      var x :| x in stuck;
      StuckIffDeadlocked(units, goal, x);
    }
  }
}
