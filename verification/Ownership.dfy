/** Who may change a unit: local steps change local units, the steps of a
    remote change the units mirrored from it, and nothing else does. */
module Ownership {
  import opened Wrappers
  import opened UnitFields
  import opened History
  import opened Store

  /** The owner whose operations may change the unit is the one in `owner`. */
  predicate MayChange(owner: Option<RemoteId>, op: Op, id: UnitId) {
    match op
    case Patch(i, _, _) => i == id && owner.None?
    case Delete(i) => i == id && owner.None?
    case UpsertSynced(remote, i, _) => i == id && owner == Some(remote)
    case DeleteSynced(remote, i) => i == id && owner == Some(remote)
    case RemoveRemote(remote) => owner == Some(remote)
    case Create(_, _, _) => false
    case AddRemote(_) => false
    case Cleanup(_) => false
  }

  /** The unit, its history and its newest entry are the same; a cleanup in
      between may only have thinned the history. */
  predicate SameUnit(db: Db, db': Db, id: UnitId, thinned: bool) {
    && id in db.units && id in db'.units && db'.units[id] == db.units[id]
    && Newest(db'.history, id) == Newest(db.history, id)
    && (!thinned ==> EntriesOf(db'.history, id) == EntriesOf(db.history, id))
  }

  lemma OtherEntriesKept(h: seq<Entry>, id: UnitId, f: Input, user: Option<UserId>, other: UnitId)
    requires other != id
    ensures Newest(h + EntryFor(id, f, user), other) == Newest(h, other)
    ensures EntriesOf(h + EntryFor(id, f, user), other) == EntriesOf(h, other)
  {
    if f.position.Some? {
      NewestOfAppended(h, EntryFor(id, f, user)[0], other);
    } else {
      assert h + [] == h;
    }
  }

  lemma WriteLeavesOthers(db: Db, db': Db, written: UnitId, u: Unit, entries: seq<Entry>, user: Option<UserId>,
        id: UnitId)
    requires id in db.units && id != written
    requires db'.units == db.units[written := u] && db'.history == db.history + entries
    requires entries == [] || entries == EntryFor(written, u.fields, user)
    ensures SameUnit(db, db', id, false)
  {
    OtherEntriesKept(db.history, written, u.fields, user, id);
    if entries == [] {
      assert db.history + [] == db.history;
    }
  }

  lemma LocalWritesLeaveOthers(db: Db, op: Op, id: UnitId)
    requires id in db.units && (op.Create? || op.Patch?) && !MayChange(db.units[id].owner, op, id)
    ensures SameUnit(db, Step(db, op), id, false)
  {
    var db' := Step(db, op);
    match op
    case Create(u, input, user) =>
      var r := CreateIn(db, u, input, user).1;
      if r.Success? {
        WriteLeavesOthers(db, db', u, r.value, EntryFor(u, r.value.fields, Some(user)), Some(user), id);
      }
    case Patch(u, patch, user) =>
      var r := PatchIn(db, u, patch, user).1;
      if r.Success? && r.value.1 != [] {
        var f := r.value.0.fields;
        WriteLeavesOthers(db, db', u, r.value.0, if SamePosition(db.units[u].fields.position, f.position) then []
            else EntryFor(u, f, Some(user)), Some(user), id);
      }
  }

  lemma UpsertLeavesOthers(db: Db, remote: RemoteId, u: UnitId, input: Input, id: UnitId)
    requires id in db.units && (id != u || db.units[id].owner != Some(remote))
    ensures SameUnit(db, UpsertIn(db, remote, u, input).0, id, false)
  {
    var db' := UpsertIn(db, remote, u, input).0;
    if UpsertIn(db, remote, u, input).1 == Success(true) {
      var f := db'.units[u].fields;
      var same := u in db.units && SamePosition(db.units[u].fields.position, f.position);
      WriteLeavesOthers(db, db', u, db'.units[u], if same then [] else EntryFor(u, f, None), None, id);
    }
  }

  /** A step that may not change the unit leaves it, its history included. */
  lemma StepLeavesOthers(db: Db, op: Op, id: UnitId)
    requires id in db.units && !MayChange(db.units[id].owner, op, id)
    ensures SameUnit(db, Step(db, op), id, op.Cleanup?)
  {
    match op
    case Create(_, _, _) => LocalWritesLeaveOthers(db, op, id);
    case Patch(_, _, _) => LocalWritesLeaveOthers(db, op, id);
    case UpsertSynced(remote, u, input) => UpsertLeavesOthers(db, remote, u, input, id);
    case Delete(u) => RemovalLeavesOthers(db, u, id);
    case DeleteSynced(_, u) => RemovalLeavesOthers(db, u, id);
    case AddRemote(_) =>
    case RemoveRemote(_) =>
    case Cleanup(cutoff) => NewestOfCleaned(db.history, cutoff, id);
  }

  lemma RemovalLeavesOthers(db: Db, gone: UnitId, id: UnitId)
    requires id in db.units
    ensures gone != id ==> SameUnit(db, RemovedFrom(db, gone), id, false)
    ensures SameUnit(db, db, id, false)
  {
    if gone != id {
      OthersWithout(db.history, gone, id);
    }
  }

  /** Over any run of steps that may not change the unit, it stays as it is. */
  lemma {:induction false} RunLeavesOthers(db: Db, ops: seq<Op>, id: UnitId)
    requires id in db.units && forall op | op in ops :: !MayChange(db.units[id].owner, op, id)
    ensures SameUnit(db, Run(db, ops), id, exists op | op in ops :: op.Cleanup?)
    decreases |ops|
  {
    if ops != [] {
      StepLeavesOthers(db, ops[0], id);
      RunLeavesOthers(Step(db, ops[0]), ops[1..], id);
    }
  }

  /** A local unit survives every sync step of every remote unchanged. */
  lemma LocalUnitsAreNeverSynced(db: Db, ops: seq<Op>, id: UnitId)
    requires id in db.units && db.units[id].owner.None?
    requires forall op | op in ops :: op.UpsertSynced? || op.DeleteSynced? || op.AddRemote? || op.RemoveRemote?
    ensures SameUnit(db, Run(db, ops), id, false)
  {
    RunLeavesOthers(db, ops, id);
  }

  /** The owner of a unit that stays only ever changes to local, and only when
      its remote is removed. */
  lemma OwnerOnlyBecomesLocal(db: Db, op: Op, id: UnitId)
    requires id in db.units && id in Step(db, op).units && Step(db, op).units[id].owner != db.units[id].owner
    ensures op.RemoveRemote? && db.units[id].owner == Some(op.remote)
    ensures Step(db, op).units[id] == db.units[id].(owner := None)
  {
  }

  /** The run without the steps of this remote's worker. */
  function WithoutWorker(ops: seq<Op>, remote: RemoteId): seq<Op> {
    if ops == [] then []
    else if IsWorkers(ops[0], remote) then WithoutWorker(ops[1..], remote)
    else [ops[0]] + WithoutWorker(ops[1..], remote)
  }

  predicate IsWorkers(op: Op, remote: RemoteId) {
    (op.UpsertSynced? || op.DeleteSynced?) && op.remote == remote
  }

  /** The remote is not configured and no unit is its. */
  ghost predicate Gone(db: Db, remote: RemoteId) {
    remote !in db.remotes && forall id | id in db.units :: db.units[id].owner != Some(remote)
  }

  lemma StepKeepsGone(db: Db, op: Op, remote: RemoteId)
    requires Gone(db, remote) && op != AddRemote(remote)
    ensures Gone(Step(db, op), remote)
    ensures IsWorkers(op, remote) ==> Step(db, op) == db
  {
  }

  lemma {:induction false} GoneWorkerIsInert(db: Db, remote: RemoteId, ops: seq<Op>)
    requires Gone(db, remote) && forall i | 0 <= i < |ops| :: ops[i] != AddRemote(remote)
    ensures Run(db, ops) == Run(db, WithoutWorker(ops, remote))
    decreases |ops|
  {
    if ops != [] {
      StepKeepsGone(db, ops[0], remote);
      GoneWorkerIsInert(Step(db, ops[0]), remote, ops[1..]);
      if !IsWorkers(ops[0], remote) {
        assert ([ops[0]] + WithoutWorker(ops[1..], remote))[1..] == WithoutWorker(ops[1..], remote);
      }
    }
  }

  /** Removing a remote keeps its units as local ones, and the later steps of its
      worker, wherever they come in between everyone else's, might as well not
      have been: over every run that does not configure that remote again. */
  lemma RemovedRemoteIsInert(db: Db, remote: RemoteId, ops: seq<Op>)
    requires forall i | 0 <= i < |ops| :: ops[i] != AddRemote(remote)
    ensures Run(RemoveRemoteIn(db, remote), ops) == Run(RemoveRemoteIn(db, remote), WithoutWorker(ops, remote))
    ensures forall id | id in db.units && db.units[id].owner == Some(remote) ::
              id in RemoveRemoteIn(db, remote).units
                  && RemoveRemoteIn(db, remote).units[id] == db.units[id].(owner := None)
    ensures RemoveRemoteIn(db, remote).history == db.history
  {
    GoneWorkerIsInert(RemoveRemoteIn(db, remote), remote, ops);
  }
}
