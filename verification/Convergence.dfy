/** From any reachable state of the protocol: what passes over the remote's present
    units, and nothing else in between, make of the mirror. */
module Convergence {
  import opened Wrappers
  import opened UnitFields
  import opened Store
  import opened EventLaws
  import opened Passes
  import opened Waiting
  import opened RepeatedPasses
  import opened Mirroring

  lemma ServedGoalAt(source: Db, order: seq<UnitId>, i: nat)
    requires SourceOk(source) && ListsAll(View(source.units), order) && i < |order|
    ensures GoalAt(Served(View(source.units), order), i) == Success(source.units[order[i]].fields)
  {
    MirrorReproduces(order[i], source.units[order[i]].fields);
  }

  lemma ServedIsConsistent(source: Db, order: seq<UnitId>)
    requires SourceOk(source) && ListsAll(View(source.units), order)
    ensures Consistent(Served(View(source.units), order))
  {
    forall i | 0 <= i < |order|
      ensures GoalAt(Served(View(source.units), order), i) == Success(source.units[order[i]].fields)
    {
      ServedGoalAt(source, order, i);
    }
  }

  lemma SameLookups<K, V>(a: map<K, V>, b: map<K, V>)
    requires forall k :: Lookup(a, k) == Lookup(b, k)
    ensures a == b
  {
    forall k ensures (k in a <==> k in b) && (k in a ==> a[k] == b[k]) {
      assert Lookup(a, k) == Lookup(b, k);
    }
  }

  lemma GoalAtIsView(source: Db, order: seq<UnitId>, x: UnitId)
    requires SourceOk(source) && ListsAll(View(source.units), order)
    ensures Lookup(Goal(Served(View(source.units), order)), x) == Lookup(View(source.units), x)
  {
    var m, list := View(source.units), Served(View(source.units), order);
    if x in m {
      var i :| 0 <= i < |order| && order[i] == x;
      ServedIsConsistent(source, order);
      ServedGoalAt(source, order, i);
      GoalOfListed(list, i);
    } else {
      GoalIsListed(list, x);
    }
  }

  /** The goal of a listing is what the remote has. */
  lemma GoalIsView(source: Db, order: seq<UnitId>)
    requires SourceOk(source) && ListsAll(View(source.units), order)
    ensures Goal(Served(View(source.units), order)) == View(source.units)
  {
    forall x ensures Lookup(Goal(Served(View(source.units), order)), x) == Lookup(View(source.units), x) {
      GoalAtIsView(source, order, x);
    }
    SameLookups(Goal(Served(View(source.units), order)), View(source.units));
  }

  /** These passes over the remote's present units bring the unit to what it is there. */
  ghost predicate Heals(s: State, order: seq<UnitId>, orders: seq<seq<UnitId>>, x: UnitId) {
    && ListsAll(View(s.source.units), order)
    && PassesFind(s.local, s.remote, Served(View(s.source.units), order), orders)
    && MirrorOf(AfterPasses(s.local, s.remote, Served(View(s.source.units), order), orders).units, s.remote, x)
         == Lookup(View(s.source.units), x)
  }

  /** The units of a rename cycle are beyond any passes. */
  lemma CyclesStay(s: State, cycle: seq<UnitId>, order: seq<UnitId>, orders: seq<seq<UnitId>>, x: UnitId)
    requires Inv(s) && Unopposed(s.local.units, s.remote, View(s.source.units))
    requires RenameCycle(s.local.units, View(s.source.units), cycle) && x in cycle
    ensures !Heals(s, order, orders, x)
  {
    if ListsAll(View(s.source.units), order)
        && PassesFind(s.local, s.remote, Served(View(s.source.units), order), orders) {
      ServedIsConsistent(s.source, order);
      GoalIsView(s.source, order);
      CycleNeverMoves(s.local, s.remote, Served(View(s.source.units), order), orders, cycle);
      var i :| 0 <= i < |cycle| && cycle[i] == x;
      assert WaitsForNext(s.local.units, View(s.source.units), cycle, i);
    }
  }

  /** In every reachable state, whatever led to it: passes over the remote's units,
      listed in any order, bring a unit to what it is on the remote exactly if its
      chain of waiting, from the mirror's names to the remote's, does not end in a
      cycle. */
  lemma PassesHealUnitIff(s0: State, actions: seq<Action>, order: seq<UnitId>, orders: seq<seq<UnitId>>, x: UnitId)
    requires Init(s0)
    requires var s := Runs(s0, actions);
             && ListsAll(View(s.source.units), order) && Unopposed(s.local.units, s.remote, View(s.source.units))
             && PassesFind(s.local, s.remote, Served(View(s.source.units), order), orders) && |orders| > |order|
    ensures var s := Runs(s0, actions);
            var final := AfterPasses(s.local, s.remote, Served(View(s.source.units), order), orders);
            MirrorOf(final.units, s.remote, x) == Lookup(View(s.source.units), x) <==>
              !Stuck(s.local.units, View(s.source.units), x)
  {
    RunsKeepInv(s0, actions);
    var s := Runs(s0, actions);
    var list := Served(View(s.source.units), order);
    ServedIsConsistent(s.source, order);
    GoalIsView(s.source, order);
    UnitReachesListingIff(s.local, s.remote, list, orders, x);
  }

  /** So they bring the whole mirror to the remote exactly if there is no rename
      cycle between them. */
  lemma PassesHealIff(s0: State, actions: seq<Action>, order: seq<UnitId>, orders: seq<seq<UnitId>>)
    requires Init(s0)
    requires var s := Runs(s0, actions);
             && ListsAll(View(s.source.units), order) && Unopposed(s.local.units, s.remote, View(s.source.units))
             && PassesFind(s.local, s.remote, Served(View(s.source.units), order), orders) && |orders| > |order|
    ensures var s := Runs(s0, actions);
            var final := AfterPasses(s.local, s.remote, Served(View(s.source.units), order), orders);
            (forall x :: MirrorOf(final.units, s.remote, x) == Lookup(View(s.source.units), x)) <==>
              NoCycle(s.local.units, View(s.source.units))
  {
    RunsKeepInv(s0, actions);
    var s := Runs(s0, actions);
    ServedIsConsistent(s.source, order);
    GoalIsView(s.source, order);
    PassesReachListingIff(s.local, s.remote, Served(View(s.source.units), order), orders);
  }
}
