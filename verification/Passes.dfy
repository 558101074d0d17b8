/** One full pass over a listing: what it asks of the store, and its exact effect. */
module Passes {
  import opened Wrappers
  import opened UnitFields
  import opened Store
  import opened StoreLaws
  import opened EventLaws
  import opened Ownership

  function UpsertOps(remote: RemoteId, list: seq<RemoteUnit>): seq<Op> {
    seq(|list|, i requires 0 <= i < |list| => UpsertSynced(remote, list[i].id, list[i].ToInput()))
  }

  function DeleteOps(remote: RemoteId, ids: seq<UnitId>): seq<Op> {
    seq(|ids|, i requires 0 <= i < |ids| => Op.DeleteSynced(remote, ids[i]))
  }

  predicate Listed(list: seq<RemoteUnit>, id: UnitId) {
    exists i | 0 <= i < |list| :: list[i].id == id
  }

  function Unlisted(list: seq<RemoteUnit>, ids: seq<UnitId>): (r: seq<UnitId>)
    ensures forall id :: id in r <==> id in ids && !Listed(list, id)
  {
    if ids == [] then []
    else Unlisted(list, ids[..|ids| - 1]) + (if Listed(list, ids[|ids| - 1]) then [] else [ids[|ids| - 1]])
  }

  /** The store after every listed unit was upserted. */
  function Upserted(db: Db, remote: RemoteId, list: seq<RemoteUnit>): Db {
    Run(db, UpsertOps(remote, list))
  }

  /** How the upsert of `list[i]` ended. */
  function Attempt(db: Db, remote: RemoteId, list: seq<RemoteUnit>, i: nat): Result<bool, UnitError>
    requires i < |list|
  {
    UpsertIn(Upserted(db, remote, list[..i]), remote, list[i].id, list[i].ToInput()).1
  }

  /** The failures a pass reports; a unit that is not the remote's is none. */
  predicate IsError(r: Result<bool, UnitError>) {
    r.Failure? && r != Failure(NotMirrored)
  }

  predicate ErrorFree(db: Db, remote: RemoteId, list: seq<RemoteUnit>) {
    forall i | 0 <= i < |list| :: !IsError(Attempt(db, remote, list, i))
  }

  /** `mirrored` is a listing of the remote's units, in any order. */
  ghost predicate ListsMirrored(db: Db, remote: RemoteId, mirrored: seq<UnitId>) {
    forall id :: id in mirrored <==> id in SyncedIdsIn(db, remote)
  }

  /** The store after a whole pass that found `mirrored` before deleting. */
  function Pass(db: Db, remote: RemoteId, list: seq<RemoteUnit>, mirrored: seq<UnitId>): Db {
    Run(Upserted(db, remote, list), DeleteOps(remote, Unlisted(list, mirrored)))
  }

  ghost predicate PassFinds(db: Db, remote: RemoteId, list: seq<RemoteUnit>, mirrored: seq<UnitId>) {
    ListsMirrored(Upserted(db, remote, list), remote, mirrored)
  }

  lemma UpsertedAppend(db: Db, remote: RemoteId, list: seq<RemoteUnit>, i: nat)
    requires i < |list|
    ensures Upserted(db, remote, list[..i + 1]) ==
        UpsertIn(Upserted(db, remote, list[..i]), remote, list[i].id, list[i].ToInput()).0
  {
    assert UpsertOps(remote, list[..i + 1]) ==
        UpsertOps(remote, list[..i]) + [UpsertSynced(remote, list[i].id, list[i].ToInput())];
    RunAppend(db, UpsertOps(remote, list[..i]), UpsertSynced(remote, list[i].id, list[i].ToInput()));
  }

  lemma DeletedAppend(db: Db, remote: RemoteId, ids: seq<UnitId>, id: UnitId)
    ensures Run(db, DeleteOps(remote, ids + [id])) == DeleteSyncedIn(Run(db, DeleteOps(remote, ids)), remote, id).0
  {
    assert DeleteOps(remote, ids + [id]) == DeleteOps(remote, ids) + [Op.DeleteSynced(remote, id)];
    RunAppend(db, DeleteOps(remote, ids), Op.DeleteSynced(remote, id));
  }

  // ---------- One upsert ----------

  ghost predicate Foreign(units: map<UnitId, Unit>, remote: RemoteId, id: UnitId) {
    id in units && units[id].owner != Some(remote)
  }

  /** Only unit `id` may differ. */
  ghost predicate OnlyChanges(units: map<UnitId, Unit>, units': map<UnitId, Unit>, id: UnitId) {
    forall k | k != id :: (k in units' <==> k in units) && (k in units ==> units'[k] == units[k])
  }

  /** An upsert either takes over the fields or changes nothing, and it is
      refused exactly for these reasons. */
  lemma UpsertEffect(db: Db, remote: RemoteId, id: UnitId, input: Input)
    requires Valid(db)
    ensures var (db', r) := UpsertIn(db, remote, id, input);
            && (r.Failure? ==> db' == db)
            && (r.Success? ==>
                  && Applied(input).Success? && id in db'.units && db'.units[id].owner == Some(remote)
                  && db'.units[id].fields == Applied(input).value)
            && db'.remotes == db.remotes && OnlyChanges(db.units, db'.units, id)
            && (r == Failure(NotMirrored) <==> Foreign(db.units, remote, id))
            && (r.Success? <==>
                  && !Foreign(db.units, remote, id) && Applied(input).Success?
                  && !NameHeld(db.units, id, Applied(input).value.name)
                  && (id in db.units || remote in db.remotes))
  {
    NormalForms(input);
    if id in db.units && Applied(input).Success? {
      SameIsEqual(db.units[id].fields, Applied(input).value);
    }
  }

  /** What an upsert answers, for every outcome: the first of its conditions that
      fails names the error, and success tells whether anything changed. */
  lemma UpsertAnswer(db: Db, remote: RemoteId, id: UnitId, input: Input)
    requires Valid(db)
    ensures UpsertIn(db, remote, id, input).1 ==
              if Foreign(db.units, remote, id) then Failure(NotMirrored)
              else if Applied(input).Failure? then Failure(Applied(input).error)
              else if NameHeld(db.units, id, Applied(input).value.name) then Failure(NameTaken)
              else if id !in db.units && remote !in db.remotes then Failure(RemoteMissing)
              else Success(id !in db.units || db.units[id].fields != Applied(input).value)
  {
    NormalForms(input);
    if id in db.units && Applied(input).Success? {
      SameIsEqual(db.units[id].fields, Applied(input).value);
    }
  }

  /** The fields the remote's unit `id` has here, if it is mirrored. */
  function MirrorOf(units: map<UnitId, Unit>, remote: RemoteId, id: UnitId): Option<Input> {
    if id in units && units[id].owner == Some(remote) then Some(units[id].fields) else None
  }

  lemma DeleteSyncedEffect(db: Db, remote: RemoteId, id: UnitId)
    requires Valid(db)
    ensures var db' := DeleteSyncedIn(db, remote, id).0;
            && Valid(db') && db'.remotes == db.remotes && OnlyChanges(db.units, db'.units, id)
            && MirrorOf(db'.units, remote, id) == None
  {
    RemovalKeepsValid(db, id);
  }

  // ---------- The exact effect of an error-free pass ----------

  /** The fields the listing gives each id: those of its last valid occurrence. */
  function Goal(list: seq<RemoteUnit>): Listing {
    if list == [] then map[]
    else
      var init, last := list[..|list| - 1], list[|list| - 1];
      match Applied(last.ToInput())
      case Success(f) => Goal(init)[last.id := f]
      case Failure(_) => Goal(init)
  }

  lemma UpsertedValid(db: Db, remote: RemoteId, list: seq<RemoteUnit>)
    requires Valid(db)
    ensures Valid(Upserted(db, remote, list))
  {
    RunKeepsValid(db, UpsertOps(remote, list));
  }

  lemma ListedAppend(list: seq<RemoteUnit>, u: RemoteUnit, id: UnitId)
    ensures Listed(list + [u], id) <==> Listed(list, id) || id == u.id
  {
    if Listed(list, id) {
      var i :| 0 <= i < |list| && list[i].id == id;
      assert (list + [u])[i].id == id;
    }
    assert (list + [u])[|list|] == u;
  }

  lemma ErrorFreePrefix(db: Db, remote: RemoteId, list: seq<RemoteUnit>, n: nat)
    requires n <= |list| && ErrorFree(db, remote, list)
    ensures ErrorFree(db, remote, list[..n])
  {
    forall i | 0 <= i < n ensures !IsError(Attempt(db, remote, list[..n], i)) {
      assert list[..n][..i] == list[..i];
      assert !IsError(Attempt(db, remote, list, i));
    }
  }

  /** What the upserts of an error-free pass make of one id. */
  lemma {:induction false} UpsertedUnit(db: Db, remote: RemoteId, list: seq<RemoteUnit>, id: UnitId)
    requires Valid(db) && ErrorFree(db, remote, list)
    ensures id in Goal(list) ==> Listed(list, id)
    ensures !Foreign(db.units, remote, id) ==>
              && !Foreign(Upserted(db, remote, list).units, remote, id)
              && (Listed(list, id) ==> id in Goal(list))
              && MirrorOf(Upserted(db, remote, list).units, remote, id) ==
                 if id in Goal(list) then Some(Goal(list)[id]) else MirrorOf(db.units, remote, id)
  {
    if list == [] {
      assert UpsertOps(remote, list) == [];
    } else {
      var n := |list| - 1;
      var init, last := list[..n], list[n];
      assert list[..n + 1] == list == init + [last];
      ErrorFreePrefix(db, remote, list, n);
      UpsertedUnit(db, remote, init, id);
      UpsertedAppend(db, remote, list, n);
      ListedAppend(init, last, id);
      var before := Upserted(db, remote, init);
      UpsertedValid(db, remote, init);
      assert !IsError(Attempt(db, remote, list, n));
      UpsertEffect(before, remote, last.id, last.ToInput());
    }
  }

  lemma {:induction false} DeletedUnit(db: Db, remote: RemoteId, ids: seq<UnitId>, id: UnitId)
    ensures var after := Run(db, DeleteOps(remote, ids)).units;
            if id in ids && MirrorOf(db.units, remote, id).Some? then id !in after
            else (id in after <==> id in db.units) && (id in after ==> after[id] == db.units[id])
  {
    if ids == [] {
      assert DeleteOps(remote, ids) == [];
    } else {
      var init, last := ids[..|ids| - 1], ids[|ids| - 1];
      assert ids == init + [last];
      DeletedUnit(db, remote, init, id);
      DeletedAppend(db, remote, init, last);
    }
  }

  lemma PassIsRun(db: Db, remote: RemoteId, list: seq<RemoteUnit>, mirrored: seq<UnitId>) returns (ops: seq<Op>)
    ensures Pass(db, remote, list, mirrored) == Run(db, ops)
    ensures forall op | op in ops :: (op.UpsertSynced? || op.DeleteSynced?) && op.remote == remote
  {
    ops := UpsertOps(remote, list) + DeleteOps(remote, Unlisted(list, mirrored));
    RunConcat(db, UpsertOps(remote, list), DeleteOps(remote, Unlisted(list, mirrored)));
  }

  /** The exact effect of a pass without errors: the remote's units here are the
      listed ones that are not someone else's, each with the fields of its last
      occurrence, and everyone else's units are as before, history included. */
  lemma ExactPass(db: Db, remote: RemoteId, list: seq<RemoteUnit>, mirrored: seq<UnitId>, id: UnitId)
    requires Valid(db) && ErrorFree(db, remote, list) && PassFinds(db, remote, list, mirrored)
    ensures var db' := Pass(db, remote, list, mirrored);
            && Valid(db')
            && (!Foreign(db.units, remote, id) ==>
                  && (Listed(list, id) <==> id in Goal(list))
                  && (id in db'.units <==> id in Goal(list))
                  && MirrorOf(db'.units, remote, id) == Lookup(Goal(list), id))
            && (Foreign(db.units, remote, id) ==> SameUnit(db, db', id, false))
  {
    var ops := PassIsRun(db, remote, list, mirrored);
    RunKeepsValid(db, ops);
    if Foreign(db.units, remote, id) {
      RunLeavesOthers(db, ops, id);
      assert forall op | op in ops :: !op.Cleanup?;
    } else {
      UpsertedUnit(db, remote, list, id);
      DeletedUnit(Upserted(db, remote, list), remote, Unlisted(list, mirrored), id);
    }
  }
}
