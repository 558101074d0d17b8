/** Passing over the same listing again and again: a unit comes to what is listed
    exactly if its chain of waiting for names does not end in a cycle. */
module RepeatedPasses {
  import opened Wrappers
  import opened UnitFields
  import opened Store
  import opened StoreLaws
  import opened EventLaws
  import opened Passes
  import opened Waiting

  // ---------- The hypotheses ----------

  /** A listing of valid units with distinct ids and names. */
  ghost predicate Consistent(list: seq<RemoteUnit>) {
    && (forall i | 0 <= i < |list| :: GoalAt(list, i).Success?)
    && (forall i, j | 0 <= i < j < |list| :: list[i].id != list[j].id)
    && (forall i, j | 0 <= i < j < |list| :: GoalAt(list, i).value.name != GoalAt(list, j).value.name)
  }

  /** No two ids of the goal want the same name. */
  ghost predicate DistinctNames(goal: Listing) {
    forall a, b | a in goal && b in goal && goal[a].name == goal[b].name :: a == b
  }

  /** No listed unit is someone else's, and no wanted name is held by someone else's unit. */
  ghost predicate Unopposed(units: map<UnitId, Unit>, remote: RemoteId, goal: Listing) {
    forall id | id in units && units[id].owner != Some(remote) ::
      id !in goal && forall x | x in goal :: goal[x].name != units[id].fields.name
  }

  // ---------- One upsert ----------

  predicate Agrees(units: map<UnitId, Unit>, goal: Listing, x: UnitId) {
    x in goal && x in units && units[x].fields == goal[x]
  }

  /** What every upsert of a pass keeps, from store `before` to store `after`. */
  ghost predicate Progress(before: map<UnitId, Unit>, after: map<UnitId, Unit>, remote: RemoteId, goal: Listing) {
    && Unopposed(after, remote, goal)
    && (forall x | Agrees(before, goal, x) :: Agrees(after, goal, x))
    && (forall x | x in goal && !Agrees(after, goal, x) ::
        (x in after <==> x in before) && (x in after ==> after[x] == before[x]))
  }

  lemma UpsertProgress(db: Db, remote: RemoteId, goal: Listing, x: UnitId, input: Input)
    requires Valid(db) && DistinctNames(goal) && Unopposed(db.units, remote, goal)
    requires x in goal && Applied(input) == Success(goal[x])
    ensures var db' := UpsertIn(db, remote, x, input).0;
            && Valid(db') && db'.remotes == db.remotes && OnlyChanges(db.units, db'.units, x)
            && Progress(db.units, db'.units, remote, goal)
            && (remote in db.remotes && !NameHeld(db.units, x, goal[x].name) ==> Agrees(db'.units, goal, x))
            && (!Agrees(db'.units, goal, x) ==> db' == db)
            && (NameHeld(db.units, x, goal[x].name) ==> db' == db)
  {
    UpsertEffect(db, remote, x, input);
    UpsertKeepsValid(db, remote, x, input);
  }

  /** Waiting is never created: an updated unit has a name nobody else wants. */
  lemma WaitsShrinks(before: map<UnitId, Unit>, after: map<UnitId, Unit>, remote: RemoteId, goal: Listing, x: UnitId,
        y: UnitId)
    requires DistinctNames(goal) && Progress(before, after, remote, goal) && Waits(after, goal, x, y)
    ensures Waits(before, goal, x, y)
  {
  }

  lemma ProgressTransitive(a: map<UnitId, Unit>, b: map<UnitId, Unit>, c: map<UnitId, Unit>, remote: RemoteId,
        goal: Listing)
    requires Progress(a, b, remote, goal) && Progress(b, c, remote, goal)
    ensures Progress(a, c, remote, goal)
  {
  }

  lemma DeadlockShrinks(before: map<UnitId, Unit>, after: map<UnitId, Unit>, remote: RemoteId, goal: Listing,
        stuck: set<UnitId>)
    requires DistinctNames(goal) && Progress(before, after, remote, goal) && Deadlock(after, goal, stuck)
    ensures Deadlock(before, goal, stuck)
  {
    forall x | x in stuck ensures WaitsWithin(before, goal, x, stuck) {
      assert WaitsWithin(after, goal, x, stuck);
      var y :| y in stuck && Waits(after, goal, x, y);
      WaitsShrinks(before, after, remote, goal, x, y);
    }
  }

  // ---------- The goal of a listing ----------

  function GoalAt(list: seq<RemoteUnit>, i: nat): Result<Input, UnitError>
    requires i < |list|
  {
    Applied(list[i].ToInput())
  }

  lemma ConsistentPrefix(list: seq<RemoteUnit>, n: nat)
    requires Consistent(list) && n <= |list|
    ensures Consistent(list[..n]) && forall i | 0 <= i < n :: GoalAt(list[..n], i) == GoalAt(list, i)
  {
    assert forall i | 0 <= i < n :: list[..n][i] == list[i];
    assert forall i | 0 <= i < n :: GoalAt(list[..n], i) == GoalAt(list, i);
  }

  lemma GoalAppend(init: seq<RemoteUnit>, last: RemoteUnit, f: Input)
    requires Applied(last.ToInput()) == Success(f)
    ensures Goal(init + [last]) == Goal(init)[last.id := f]
  {
    assert (init + [last])[..|init|] == init;
  }

  lemma {:induction false} GoalIsListed(list: seq<RemoteUnit>, x: UnitId)
    ensures x in Goal(list) ==> Listed(list, x)
  {
    if list != [] {
      var n := |list| - 1;
      GoalIsListed(list[..n], x);
      ListedAppend(list[..n], list[n], x);
      assert list == list[..n] + [list[n]];
    }
  }

  lemma {:induction false} GoalOfListed(list: seq<RemoteUnit>, i: nat)
    requires Consistent(list) && i < |list|
    ensures list[i].id in Goal(list) && GoalAt(list, i) == Success(Goal(list)[list[i].id])
    decreases |list|
  {
    var n := |list| - 1;
    assert GoalAt(list, n).Success?;
    if i < n {
      ConsistentPrefix(list, n);
      GoalOfListed(list[..n], i);
    }
  }

  lemma {:induction false} GoalSize(list: seq<RemoteUnit>)
    requires Consistent(list)
    ensures |Goal(list)| == |list|
  {
    if list != [] {
      var n := |list| - 1;
      ConsistentPrefix(list, n);
      GoalSize(list[..n]);
      assert GoalAt(list, n).Success?;
      if list[n].id in Goal(list[..n]) {
        GoalIsListed(list[..n], list[n].id);
        assert false;
      }
    }
  }

  lemma GoalHasDistinctNames(list: seq<RemoteUnit>)
    requires Consistent(list)
    ensures DistinctNames(Goal(list))
  {
    forall a, b | a in Goal(list) && b in Goal(list) && Goal(list)[a].name == Goal(list)[b].name ensures a == b {
      GoalIsListed(list, a);
      GoalIsListed(list, b);
      var i :| 0 <= i < |list| && list[i].id == a;
      var j :| 0 <= j < |list| && list[j].id == b;
      GoalOfListed(list, i);
      GoalOfListed(list, j);
    }
  }

  // ---------- One pass ----------

  ghost predicate Ready(db: Db, remote: RemoteId, list: seq<RemoteUnit>) {
    Valid(db) && remote in db.remotes && Consistent(list) && Unopposed(db.units, remote, Goal(list))
  }

  /** Units that are not listed are the same. */
  ghost predicate SameOutside(before: map<UnitId, Unit>, after: map<UnitId, Unit>, goal: Listing) {
    forall x | x !in goal :: (x in after <==> x in before) && (x in after ==> after[x] == before[x])
  }

  lemma {:induction false} UpsertsProgress(db: Db, remote: RemoteId, list: seq<RemoteUnit>, n: nat)
    requires Ready(db, remote, list) && n <= |list|
    ensures var up := Upserted(db, remote, list[..n]);
            Ready(up, remote, list) && Progress(db.units, up.units, remote, Goal(list))
                && SameOutside(db.units, up.units, Goal(list))
  {
    if n == 0 {
      assert UpsertOps(remote, list[..0]) == [];
    } else {
      UpsertsProgress(db, remote, list, n - 1);
      UpsertStep(db, remote, list, n - 1);
      ProgressTransitive(db.units, Upserted(db, remote, list[..n - 1]).units, Upserted(db, remote, list[..n]).units,
          remote, Goal(list));
    }
  }

  lemma UpsertStep(db: Db, remote: RemoteId, list: seq<RemoteUnit>, k: nat)
    requires k < |list| && Ready(Upserted(db, remote, list[..k]), remote, list)
    ensures var before, after := Upserted(db, remote, list[..k]), Upserted(db, remote, list[..k + 1]);
            && Ready(after, remote, list) && Progress(before.units, after.units, remote, Goal(list))
            && SameOutside(before.units, after.units, Goal(list)) && list[k].id in Goal(list)
            && (!NameHeld(before.units, list[k].id, Goal(list)[list[k].id].name) ==>
                Agrees(after.units, Goal(list), list[k].id))
  {
    UpsertedAppend(db, remote, list, k);
    GoalOfListed(list, k);
    GoalHasDistinctNames(list);
    UpsertProgress(Upserted(db, remote, list[..k]), remote, Goal(list), list[k].id, list[k].ToInput());
  }

  /** A wanted name nobody holds stays free until its unit's turn. */
  lemma NameStaysFree(before: map<UnitId, Unit>, after: map<UnitId, Unit>, remote: RemoteId, goal: Listing, x: UnitId)
    requires DistinctNames(goal) && Progress(before, after, remote, goal) && SameOutside(before, after, goal)
    requires x in goal && !NameHeld(before, x, goal[x].name)
    ensures !NameHeld(after, x, goal[x].name)
  {
  }

  lemma FreeUnitIsTaken(db: Db, remote: RemoteId, list: seq<RemoteUnit>, k: nat, x: UnitId)
    requires Ready(db, remote, list) && k < |list| && x == list[k].id && x in Goal(list)
    requires !NameHeld(db.units, x, Goal(list)[x].name)
    ensures Agrees(Upserted(db, remote, list[..k + 1]).units, Goal(list), x)
  {
    UpsertsProgress(db, remote, list, k);
    GoalHasDistinctNames(list);
    var before := Upserted(db, remote, list[..k]);
    NameStaysFree(db.units, before.units, remote, Goal(list), x);
    UpsertStep(db, remote, list, k);
  }

  lemma AgreementStep(db: Db, remote: RemoteId, list: seq<RemoteUnit>, k: nat, x: UnitId)
    requires Ready(db, remote, list) && k < |list|
    requires Agrees(Upserted(db, remote, list[..k]).units, Goal(list), x)
    ensures Agrees(Upserted(db, remote, list[..k + 1]).units, Goal(list), x)
  {
    UpsertsProgress(db, remote, list, k);
    UpsertStep(db, remote, list, k);
  }

  lemma {:induction false} AgreementStays(db: Db, remote: RemoteId, list: seq<RemoteUnit>, m: nat, n: nat, x: UnitId)
    requires Ready(db, remote, list) && m <= n <= |list|
    requires Agrees(Upserted(db, remote, list[..m]).units, Goal(list), x)
    ensures Agrees(Upserted(db, remote, list[..n]).units, Goal(list), x)
    decreases n
  {
    if m < n {
      AgreementStays(db, remote, list, m, n - 1, x);
      AgreementStep(db, remote, list, n - 1, x);
    }
  }

  /** The remote's units here are listed ones. */
  ghost predicate MirrorWithin(units: map<UnitId, Unit>, remote: RemoteId, goal: Listing) {
    forall x | x in units && units[x].owner == Some(remote) :: x in goal
  }

  /** The deletions of a pass only take unlisted units of the remote. */
  ghost predicate UnlistedGone(before: map<UnitId, Unit>, after: map<UnitId, Unit>, remote: RemoteId, goal: Listing) {
    forall x :: if x in before && before[x].owner == Some(remote) && x !in goal then x !in after
                else (x in after <==> x in before) && (x in after ==> after[x] == before[x])
  }

  lemma DeletesTrim(db: Db, remote: RemoteId, list: seq<RemoteUnit>, mirrored: seq<UnitId>)
    requires Consistent(list) && PassFinds(db, remote, list, mirrored)
    ensures UnlistedGone(Upserted(db, remote, list).units, Pass(db, remote, list, mirrored).units, remote, Goal(list))
  {
    var up := Upserted(db, remote, list);
    forall x ensures x in Unlisted(list, mirrored) <==> x in SyncedIdsIn(up, remote) && x !in Goal(list) {
      GoalIsListed(list, x);
      if Listed(list, x) {
        var i :| 0 <= i < |list| && list[i].id == x;
        GoalOfListed(list, i);
      }
    }
    forall x {
      DeletedUnit(up, remote, Unlisted(list, mirrored), x);
    }
  }

  lemma TrimmingIsProgress(before: map<UnitId, Unit>, after: map<UnitId, Unit>, remote: RemoteId, goal: Listing)
    requires Unopposed(before, remote, goal) && UnlistedGone(before, after, remote, goal)
    ensures Progress(before, after, remote, goal) && MirrorWithin(after, remote, goal)
    ensures MirrorWithin(before, remote, goal) ==> forall x :: Agrees(before, goal, x) <==> Agrees(after, goal, x)
  {
  }

  lemma PassKeepsRemotes(db: Db, remote: RemoteId, list: seq<RemoteUnit>, mirrored: seq<UnitId>)
    requires Valid(db)
    ensures Valid(Pass(db, remote, list, mirrored)) && Pass(db, remote, list, mirrored).remotes == db.remotes
  {
    var ops := PassIsRun(db, remote, list, mirrored);
    RunKeepsValid(db, ops);
    SyncRunKeepsRemotes(db, ops);
  }

  lemma {:induction false} SyncRunKeepsRemotes(db: Db, ops: seq<Op>)
    requires forall op | op in ops :: op.UpsertSynced? || op.DeleteSynced?
    ensures Run(db, ops).remotes == db.remotes
    decreases |ops|
  {
    if ops != [] {
      assert ops[0] in ops;
      SyncRunKeepsRemotes(Step(db, ops[0]), ops[1..]);
    }
  }

  /** Every pass keeps what agrees, leaves alone what does not come to agree, and
      ends with only listed units. */
  lemma PassProgress(db: Db, remote: RemoteId, list: seq<RemoteUnit>, mirrored: seq<UnitId>)
    requires Ready(db, remote, list) && PassFinds(db, remote, list, mirrored)
    ensures var db' := Pass(db, remote, list, mirrored);
            && Ready(db', remote, list) && Progress(db.units, db'.units, remote, Goal(list))
                && MirrorWithin(db'.units, remote, Goal(list))
  {
    assert list[..|list|] == list;
    UpsertsProgress(db, remote, list, |list|);
    DeletesTrim(db, remote, list, mirrored);
    var up, db' := Upserted(db, remote, list), Pass(db, remote, list, mirrored);
    TrimmingIsProgress(up.units, db'.units, remote, Goal(list));
    ProgressTransitive(db.units, up.units, db'.units, remote, Goal(list));
    PassKeepsRemotes(db, remote, list, mirrored);
  }

  function Disagreeing(units: map<UnitId, Unit>, goal: Listing): set<UnitId> {
    set x | x in goal && !Agrees(units, goal, x)
  }

  /** Without a deadlock some disagreeing unit waits for nobody. */
  lemma SomeUnitIsFree(units: map<UnitId, Unit>, remote: RemoteId, goal: Listing) returns (x: UnitId)
    requires UniqueNames(units) && DistinctNames(goal) && Unopposed(units, remote, goal)
        && MirrorWithin(units, remote, goal)
    requires Disagreeing(units, goal) != {} && !Deadlock(units, goal, Disagreeing(units, goal))
    ensures x in Disagreeing(units, goal) && !NameHeld(units, x, goal[x].name)
  {
    var stuck := Disagreeing(units, goal);
    x :| x in stuck && !WaitsWithin(units, goal, x, stuck);
    if NameHeld(units, x, goal[x].name) {
      var y :| y in units && y != x && units[y].fields.name == goal[x].name;
      assert y in goal && !Agrees(units, goal, y);
      assert Waits(units, goal, x, y);
      assert false;
    }
  }

  /** Once only listed units are mirrored, a pass makes some disagreeing unit
      agree, unless all of them wait for one another. */
  lemma DisagreementFalls(db: Db, remote: RemoteId, list: seq<RemoteUnit>, mirrored: seq<UnitId>)
    requires Ready(db, remote, list) && PassFinds(db, remote, list, mirrored)
    requires MirrorWithin(db.units, remote, Goal(list)) && Disagreeing(db.units, Goal(list)) != {}
    requires !Deadlock(db.units, Goal(list), Disagreeing(db.units, Goal(list)))
    ensures Disagreeing(Pass(db, remote, list, mirrored).units, Goal(list)) < Disagreeing(db.units, Goal(list))
  {
    var goal := Goal(list);
    PassProgress(db, remote, list, mirrored);
    GoalHasDistinctNames(list);
    var x := SomeUnitIsFree(db.units, remote, goal);
    GoalIsListed(list, x);
    var k :| 0 <= k < |list| && list[k].id == x;
    FreeUnitAgrees(db, remote, list, mirrored, k, x);
  }

  lemma FreeUnitAgrees(db: Db, remote: RemoteId, list: seq<RemoteUnit>, mirrored: seq<UnitId>, k: nat, x: UnitId)
    requires Ready(db, remote, list) && PassFinds(db, remote, list, mirrored)
    requires k < |list| && x == list[k].id && x in Goal(list) && !NameHeld(db.units, x, Goal(list)[x].name)
    ensures Agrees(Pass(db, remote, list, mirrored).units, Goal(list), x)
  {
    FreeUnitIsTaken(db, remote, list, k, x);
    AgreementStays(db, remote, list, k + 1, |list|, x);
    assert list[..|list|] == list;
    DeletesTrim(db, remote, list, mirrored);
  }

  // ---------- Any number of passes ----------

  function AfterPasses(db: Db, remote: RemoteId, list: seq<RemoteUnit>, orders: seq<seq<UnitId>>): Db
    decreases |orders|
  {
    if orders == [] then db else AfterPasses(Pass(db, remote, list, orders[0]), remote, list, orders[1..])
  }

  ghost predicate PassesFind(db: Db, remote: RemoteId, list: seq<RemoteUnit>, orders: seq<seq<UnitId>>)
    decreases |orders|
  {
    orders == [] || (PassFinds(db, remote, list, orders[0])
        && PassesFind(Pass(db, remote, list, orders[0]), remote, list, orders[1..]))
  }

  lemma {:induction false} InSomeOrder(ids: set<UnitId>) returns (order: seq<UnitId>)
    ensures forall id :: id in order <==> id in ids
    decreases |ids|
  {
    order := [];
    if ids != {} {
      var id :| id in ids;
      var rest := InSomeOrder(ids - {id});
      order := [id] + rest;
    }
  }

  /** From any store any number of passes can be made. */
  lemma {:induction false} PassesCanBeMade(db: Db, remote: RemoteId, list: seq<RemoteUnit>, n: nat)
        returns (orders: seq<seq<UnitId>>)
    ensures |orders| == n && PassesFind(db, remote, list, orders)
    decreases n
  {
    orders := [];
    if n > 0 {
      var first := InSomeOrder(SyncedIdsIn(Upserted(db, remote, list), remote));
      var rest := PassesCanBeMade(Pass(db, remote, list, first), remote, list, n - 1);
      orders := [first] + rest;
      assert orders[1..] == rest;
    }
  }

  lemma ProperSubsetIsSmaller<T>(a: set<T>, b: set<T>)
    requires a < b
    ensures |a| < |b|
  {
    assert b == a + (b - a);
  }

  lemma SubsetIsNotLarger<T>(a: set<T>, b: set<T>)
    requires a <= b
    ensures |a| <= |b|
  {
    assert b == a + (b - a);
  }

  /** What one pass keeps, any number of them keep. */
  lemma {:induction false} PassesProgress(db: Db, remote: RemoteId, list: seq<RemoteUnit>, orders: seq<seq<UnitId>>)
    requires Ready(db, remote, list) && PassesFind(db, remote, list, orders)
    ensures var final := AfterPasses(db, remote, list, orders);
            && Ready(final, remote, list) && Progress(db.units, final.units, remote, Goal(list))
            && (orders != [] || MirrorWithin(db.units, remote, Goal(list)) ==>
                MirrorWithin(final.units, remote, Goal(list)))
    decreases |orders|
  {
    if orders != [] {
      var db' := Pass(db, remote, list, orders[0]);
      PassProgress(db, remote, list, orders[0]);
      PassesProgress(db', remote, list, orders[1..]);
      ProgressTransitive(db.units, db'.units, AfterPasses(db, remote, list, orders).units, remote, Goal(list));
    }
  }

  // ---------- Stuck units ----------

  /** The units of `stuck` are the same, or still missing. */
  ghost predicate SameStuck(before: map<UnitId, Unit>, after: map<UnitId, Unit>, stuck: set<UnitId>) {
    forall x | x in stuck :: (x in after <==> x in before) && (x in after ==> after[x] == before[x])
  }

  /** A unit that waits disagrees: another one has the name it wants. */
  lemma DeadlockDisagrees(units: map<UnitId, Unit>, goal: Listing, stuck: set<UnitId>, x: UnitId)
    requires UniqueNames(units) && Deadlock(units, goal, stuck) && x in stuck
    ensures x in goal && !Agrees(units, goal, x) && NameHeld(units, x, goal[x].name)
  {
    assert WaitsWithin(units, goal, x, stuck);
    var y :| y in stuck && Waits(units, goal, x, y);
  }

  lemma SameUnitsSameDeadlock(before: map<UnitId, Unit>, after: map<UnitId, Unit>, goal: Listing, stuck: set<UnitId>)
    requires Deadlock(before, goal, stuck) && SameStuck(before, after, stuck)
    ensures Deadlock(after, goal, stuck)
  {
    forall x | x in stuck ensures WaitsWithin(after, goal, x, stuck) {
      assert WaitsWithin(before, goal, x, stuck);
      var y :| y in stuck && Waits(before, goal, x, y);
      assert Waits(after, goal, x, y);
    }
  }

  lemma SameStuckTransitive(a: map<UnitId, Unit>, b: map<UnitId, Unit>, c: map<UnitId, Unit>, stuck: set<UnitId>)
    requires SameStuck(a, b, stuck) && SameStuck(b, c, stuck)
    ensures SameStuck(a, c, stuck)
  {
  }

  /** An upsert of a stuck unit is refused, and one of another leaves it alone. */
  lemma UpsertLeavesStuck(db: Db, remote: RemoteId, list: seq<RemoteUnit>, k: nat, stuck: set<UnitId>)
    requires Ready(db, remote, list) && k < |list| && Deadlock(db.units, Goal(list), stuck)
    ensures SameStuck(db.units, UpsertIn(db, remote, list[k].id, list[k].ToInput()).0.units, stuck)
  {
    GoalOfListed(list, k);
    if list[k].id in stuck {
      DeadlockDisagrees(db.units, Goal(list), stuck, list[k].id);
    }
    UpsertEffect(db, remote, list[k].id, list[k].ToInput());
  }

  lemma {:induction false} UpsertsLeaveStuck(db: Db, remote: RemoteId, list: seq<RemoteUnit>, n: nat,
        stuck: set<UnitId>)
    requires Ready(db, remote, list) && n <= |list| && Deadlock(db.units, Goal(list), stuck)
    ensures SameStuck(db.units, Upserted(db, remote, list[..n]).units, stuck)
  {
    if n == 0 {
      assert UpsertOps(remote, list[..0]) == [];
    } else {
      UpsertsLeaveStuck(db, remote, list, n - 1, stuck);
      NextUpsertLeavesStuck(db, remote, list, n - 1, stuck);
      SameStuckTransitive(db.units, Upserted(db, remote, list[..n - 1]).units, Upserted(db, remote, list[..n]).units,
          stuck);
    }
  }

  lemma {:induction false} NextUpsertLeavesStuck(db: Db, remote: RemoteId, list: seq<RemoteUnit>, k: nat,
        stuck: set<UnitId>)
    requires Ready(db, remote, list) && k < |list| && Deadlock(db.units, Goal(list), stuck)
    requires SameStuck(db.units, Upserted(db, remote, list[..k]).units, stuck)
    ensures SameStuck(Upserted(db, remote, list[..k]).units, Upserted(db, remote, list[..k + 1]).units, stuck)
  {
    UpsertsProgress(db, remote, list, k);
    SameUnitsSameDeadlock(db.units, Upserted(db, remote, list[..k]).units, Goal(list), stuck);
    UpsertLeavesStuck(Upserted(db, remote, list[..k]), remote, list, k, stuck);
    UpsertedAppend(db, remote, list, k);
  }

  lemma PassLeavesStuck(db: Db, remote: RemoteId, list: seq<RemoteUnit>, mirrored: seq<UnitId>, stuck: set<UnitId>)
    requires Ready(db, remote, list) && PassFinds(db, remote, list, mirrored) && Deadlock(db.units, Goal(list), stuck)
    ensures SameStuck(db.units, Pass(db, remote, list, mirrored).units, stuck)
  {
    assert list[..|list|] == list;
    UpsertsLeaveStuck(db, remote, list, |list|, stuck);
    DeletesTrim(db, remote, list, mirrored);
    forall x | x in stuck {
      DeadlockDisagrees(db.units, Goal(list), stuck, x);
    }
  }

  /** Units that all wait for one another are exactly as they were, and disagree,
      after any number of passes. */
  lemma {:induction false} DeadlockNeverMoves(db: Db, remote: RemoteId, list: seq<RemoteUnit>,
        orders: seq<seq<UnitId>>, stuck: set<UnitId>)
    requires Ready(db, remote, list) && PassesFind(db, remote, list, orders) && Deadlock(db.units, Goal(list), stuck)
    ensures var final := AfterPasses(db, remote, list, orders);
            && SameStuck(db.units, final.units, stuck) && Deadlock(final.units, Goal(list), stuck)
            && forall x | x in stuck :: !Agrees(final.units, Goal(list), x)
    decreases |orders|
  {
    if orders == [] {
      forall x | x in stuck {
        DeadlockDisagrees(db.units, Goal(list), stuck, x);
      }
    } else {
      var db' := Pass(db, remote, list, orders[0]);
      PassProgress(db, remote, list, orders[0]);
      PassLeavesStuck(db, remote, list, orders[0], stuck);
      SameUnitsSameDeadlock(db.units, db'.units, Goal(list), stuck);
      DeadlockNeverMoves(db', remote, list, orders[1..], stuck);
      SameStuckTransitive(db.units, db'.units, AfterPasses(db, remote, list, orders).units, stuck);
    }
  }

  /** In particular the units on a rename cycle. */
  lemma CycleNeverMoves(db: Db, remote: RemoteId, list: seq<RemoteUnit>, orders: seq<seq<UnitId>>, cycle: seq<UnitId>)
    requires Ready(db, remote, list) && PassesFind(db, remote, list, orders) && RenameCycle(db.units, Goal(list), cycle)
    ensures var final := AfterPasses(db, remote, list, orders);
            && RenameCycle(final.units, Goal(list), cycle)
            && forall x | x in cycle ::
                 x in db.units && x in final.units && final.units[x] == db.units[x]
                     && !Agrees(final.units, Goal(list), x)
  {
    var final := AfterPasses(db, remote, list, orders);
    var stuck := set x | x in cycle;
    CycleIsDeadlock(db.units, Goal(list), cycle);
    DeadlockNeverMoves(db, remote, list, orders, stuck);
    forall i | 0 <= i < |cycle| ensures cycle[i] in db.units && WaitsForNext(final.units, Goal(list), cycle, i) {
      assert WaitsForNext(db.units, Goal(list), cycle, i);
      assert WaitsForNext(db.units, Goal(list), cycle, if i == 0 then |cycle| - 1 else i - 1);
      assert cycle[if i + 1 < |cycle| then i + 1 else 0] in stuck;
    }
  }

  // ---------- How it ends ----------

  /** Enough passes leave no disagreeing unit, or only ones that all wait for one
      another. */
  lemma {:induction false} PassesEnd(db: Db, remote: RemoteId, list: seq<RemoteUnit>, orders: seq<seq<UnitId>>)
    requires Ready(db, remote, list) && PassesFind(db, remote, list, orders)
    requires MirrorWithin(db.units, remote, Goal(list)) && |orders| >= |Disagreeing(db.units, Goal(list))|
    ensures var final := AfterPasses(db, remote, list, orders);
            var left := Disagreeing(final.units, Goal(list));
            left == {} || Deadlock(final.units, Goal(list), left)
    decreases |orders|
  {
    var goal := Goal(list);
    var left := Disagreeing(db.units, goal);
    PassesProgress(db, remote, list, orders);
    if left == {} {
      assert Disagreeing(AfterPasses(db, remote, list, orders).units, goal) <= left;
    } else if Deadlock(db.units, goal, left) {
      DeadlockNeverMoves(db, remote, list, orders, left);
      assert Disagreeing(AfterPasses(db, remote, list, orders).units, goal) == left;
    } else {
      var db' := Pass(db, remote, list, orders[0]);
      DisagreementFalls(db, remote, list, orders[0]);
      ProperSubsetIsSmaller(Disagreeing(db'.units, goal), left);
      PassProgress(db, remote, list, orders[0]);
      PassesEnd(db', remote, list, orders[1..]);
    }
  }

  lemma PassesEndDeadlocked(db: Db, remote: RemoteId, list: seq<RemoteUnit>, orders: seq<seq<UnitId>>)
    requires Ready(db, remote, list) && PassesFind(db, remote, list, orders) && |orders| > |list|
    ensures var final := AfterPasses(db, remote, list, orders);
            var left := Disagreeing(final.units, Goal(list));
            && MirrorWithin(final.units, remote, Goal(list)) && Unopposed(final.units, remote, Goal(list))
            && (left == {} || Deadlock(db.units, Goal(list), left))
  {
    var goal, final := Goal(list), AfterPasses(db, remote, list, orders);
    var first := Pass(db, remote, list, orders[0]);
    PassProgress(db, remote, list, orders[0]);
    GoalSize(list);
    SubsetIsNotLarger(Disagreeing(first.units, goal), goal.Keys);
    PassesEnd(first, remote, list, orders[1..]);
    PassesProgress(db, remote, list, orders);
    GoalHasDistinctNames(list);
    if Disagreeing(final.units, goal) != {} {
      DeadlockShrinks(db.units, final.units, remote, goal, Disagreeing(final.units, goal));
    }
  }

  /** Where repeated passes over a fixed listing take each unit: to what is listed,
      or away if it is not listed, exactly if its chain of waiting does not end in
      a cycle. One pass more than there are listed units is enough. */
  lemma UnitReachesListingIff(db: Db, remote: RemoteId, list: seq<RemoteUnit>, orders: seq<seq<UnitId>>, x: UnitId)
    requires Ready(db, remote, list) && PassesFind(db, remote, list, orders) && |orders| > |list|
    ensures MirrorOf(AfterPasses(db, remote, list, orders).units, remote, x) == Lookup(Goal(list), x) <==>
              !Stuck(db.units, Goal(list), x)
  {
    var goal, final := Goal(list), AfterPasses(db, remote, list, orders);
    StuckIffDeadlocked(db.units, goal, x);
    PassesEndDeadlocked(db, remote, list, orders);
    if stuck :| Deadlock(db.units, goal, stuck) && x in stuck {
      DeadlockNeverMoves(db, remote, list, orders, stuck);
      DeadlockDisagrees(db.units, goal, stuck, x);
    } else {
      assert x !in Disagreeing(final.units, goal);
    }
  }

  /** The whole listing is reached exactly if there is no rename cycle between it
      and the mirror. */
  lemma PassesReachListingIff(db: Db, remote: RemoteId, list: seq<RemoteUnit>, orders: seq<seq<UnitId>>)
    requires Ready(db, remote, list) && PassesFind(db, remote, list, orders) && |orders| > |list|
    ensures (forall x :: MirrorOf(AfterPasses(db, remote, list, orders).units, remote, x) == Lookup(Goal(list), x)) <==>
              NoCycle(db.units, Goal(list))
  {
    forall x ensures MirrorOf(AfterPasses(db, remote, list, orders).units, remote, x) == Lookup(Goal(list), x) <==>
                       !Stuck(db.units, Goal(list), x) {
      UnitReachesListingIff(db, remote, list, orders, x);
    }
    SomeStuckIffCycle(db.units, Goal(list));
  }
}
