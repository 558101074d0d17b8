/** The unit store: what each operation does to the database and which event
    it publishes, as functions on database states and as the service that
    implements them in place. Every operation is one transaction followed by
    its event; operations run one after the other. */
module Store {
  import opened Wrappers
  import opened UnitFields
  import opened History

  type UnitId = nat
  type RemoteId = nat
  type UserId = nat

  /** A unit row. `owner` is the sync remote it is mirrored from, None if local. */
  datatype Unit = Unit(fields: Input, owner: Option<RemoteId>, createdBy: Option<UserId>, updatedBy: Option<UserId>)

  datatype Event =
    | Created(id: UnitId, unit: Unit)
    | Updated(id: UnitId, unit: Unit)
    | Deleted(id: UnitId)

  datatype Db = Db(
    units: map<UnitId, Unit>,
    remotes: set<RemoteId>,
    history: seq<Entry>,
    published: seq<Event>)

  const EMPTY := Db(map[], {}, [], [])

  /** The unique index on names: another unit has this one. */
  predicate NameHeld(units: map<UnitId, Unit>, id: UnitId, name: string) {
    exists k | k in units :: k != id && units[k].fields.name == name
  }

  /** recordPosition: the entry for a unit's position, if it has one. */
  function EntryFor(id: UnitId, f: Input, user: Option<UserId>): seq<Entry> {
    if f.position.Some? then [Entry(id, f.position.value, user)] else []
  }

  // ---------- Local operations ----------

  function CreateIn(db: Db, id: UnitId, input: Input, user: UserId): (Db, Result<Unit, UnitError>) {
    match Applied(input)
    case Failure(e) => (db, Failure(e))
    case Success(f) =>
      if id in db.units || NameHeld(db.units, id, f.name) then (db, Failure(NameTaken))
      else
        var u := Unit(f, None, Some(user), Some(user));
        (Db(db.units[id := u], db.remotes, db.history + EntryFor(id, f, Some(user)), db.published + [Created(id, u)]),
            Success(u))
  }

  function PatchIn(db: Db, id: UnitId, patch: Input -> Input, user: UserId): (Db, Result<(Unit, seq<Field>), UnitError>)
  {
    if id !in db.units then (db, Failure(UnitNotFound))
    else if db.units[id].owner.Some? then (db, Failure(UnitSynced))
    else
      var before := db.units[id];
      match Applied(patch(before.fields))
      case Failure(e) => (db, Failure(e))
      case Success(f) =>
        var changed := Changed(before.fields, f);
        if changed == [] then (db, Success((before, [])))
        else if NameHeld(db.units, id, f.name) then (db, Failure(NameTaken))
        else
          var u := before.(fields := f, updatedBy := Some(user));
          var entries := if SamePosition(before.fields.position, f.position) then [] else EntryFor(id, f, Some(user));
          (Db(db.units[id := u], db.remotes, db.history + entries, db.published + [Updated(id, u)]),
              Success((u, changed)))
  }

  function DeleteIn(db: Db, id: UnitId): (Db, Result<Unit, UnitError>) {
    if id !in db.units then (db, Failure(UnitNotFound))
    else if db.units[id].owner.Some? then (db, Failure(UnitSynced))
    else (RemovedFrom(db, id), Success(db.units[id]))
  }

  /** Deleting a unit takes its history along. */
  function RemovedFrom(db: Db, id: UnitId): Db {
    Db(db.units - {id}, db.remotes, Without(db.history, id), db.published + [Deleted(id)])
  }

  // ---------- Synced operations ----------

  function UpsertIn(db: Db, remote: RemoteId, id: UnitId, input: Input): (Db, Result<bool, UnitError>) {
    if id !in db.units then
      match Applied(input)
      case Failure(e) => (db, Failure(e))
      case Success(f) =>
        if NameHeld(db.units, id, f.name) then (db, Failure(NameTaken))
        else if remote !in db.remotes then (db, Failure(RemoteMissing))
        else
          var u := Unit(f, Some(remote), None, None);
          (Db(db.units[id := u], db.remotes, db.history + EntryFor(id, f, None), db.published + [Created(id, u)]),
              Success(true))
    else if db.units[id].owner != Some(remote) then (db, Failure(NotMirrored))
    else
      var before := db.units[id];
      match Applied(input)
      case Failure(e) => (db, Failure(e))
      case Success(f) =>
        if Changed(before.fields, f) == [] then (db, Success(false))
        else if NameHeld(db.units, id, f.name) then (db, Failure(NameTaken))
        else
          var u := before.(fields := f);
          var entries := if SamePosition(before.fields.position, f.position) then [] else EntryFor(id, f, None);
          (Db(db.units[id := u], db.remotes, db.history + entries, db.published + [Updated(id, u)]), Success(true))
  }

  function DeleteSyncedIn(db: Db, remote: RemoteId, id: UnitId): (Db, bool) {
    if id in db.units && db.units[id].owner == Some(remote) then (RemovedFrom(db, id), true) else (db, false)
  }

  function SyncedIdsIn(db: Db, remote: RemoteId): set<UnitId> {
    set id | id in db.units && db.units[id].owner == Some(remote)
  }

  // ---------- Remotes and maintenance ----------

  /** Deleting a remote turns its units into local ones (ON DELETE SET NULL). */
  function RemoveRemoteIn(db: Db, remote: RemoteId): Db {
    db.(units := map id | id in db.units ::
                   if db.units[id].owner == Some(remote) then db.units[id].(owner := None) else db.units[id],
        remotes := db.remotes - {remote})
  }

  /** The positioned units without any history, which the startup backfill is for. */
  function MissingHistory(db: Db): set<UnitId> {
    set id | id in db.units && db.units[id].fields.position.Some? && Newest(db.history, id).None?
  }

  // ---------- Runs ----------

  datatype Op =
    | Create(id: UnitId, input: Input, user: UserId)
    | Patch(id: UnitId, patch: Input -> Input, user: UserId)
    | Delete(id: UnitId)
    | UpsertSynced(remote: RemoteId, id: UnitId, input: Input)
    | DeleteSynced(remote: RemoteId, id: UnitId)
    | AddRemote(remote: RemoteId)
    | RemoveRemote(remote: RemoteId)
    | Cleanup(cutoff: int)

  function Step(db: Db, op: Op): Db {
    match op
    case Create(id, input, user) => CreateIn(db, id, input, user).0
    case Patch(id, patch, user) => PatchIn(db, id, patch, user).0
    case Delete(id) => DeleteIn(db, id).0
    case UpsertSynced(remote, id, input) => UpsertIn(db, remote, id, input).0
    case DeleteSynced(remote, id) => DeleteSyncedIn(db, remote, id).0
    case AddRemote(remote) => db.(remotes := db.remotes + {remote})
    case RemoveRemote(remote) => RemoveRemoteIn(db, remote)
    case Cleanup(cutoff) => db.(history := Cleaned(db.history, cutoff))
  }

  function Run(db: Db, ops: seq<Op>): Db
    decreases |ops|
  {
    if ops == [] then db else Run(Step(db, ops[0]), ops[1..])
  }

  // ---------- The service ----------

  class Service {
    var units: map<UnitId, Unit>
    var remotes: set<RemoteId>
    var history: seq<Entry>
    var published: seq<Event>

    ghost function State(): Db
      reads this
    {
      Db(units, remotes, history, published)
    }

    constructor ()
      ensures State() == EMPTY
    {
      units, remotes, history, published := map[], {}, [], [];
    }

    method RecordPosition(id: UnitId, f: Input, user: Option<UserId>)
      modifies this`history
      ensures history == old(history) + EntryFor(id, f, user)
    {
      if f.position.Some? {
        history := history + [Entry(id, f.position.value, user)];
      }
    }

    method Create(id: UnitId, input: Input, user: UserId) returns (r: Result<Unit, UnitError>)
      modifies this
      ensures (State(), r) == CreateIn(old(State()), id, input, user)
    {
      var applied := Apply(input);
      if applied.Failure? {
        return Failure(applied.error);
      }
      if id in units || NameHeld(units, id, applied.value.name) {
        return Failure(NameTaken);
      }
      var unit := Unit(applied.value, None, Some(user), Some(user));
      units := units[id := unit];
      RecordPosition(id, unit.fields, Some(user));
      published := published + [Created(id, unit)];
      r := Success(unit);
    }

    method Patch(id: UnitId, patch: Input -> Input, user: UserId) returns (r: Result<(Unit, seq<Field>), UnitError>)
      modifies this
      ensures (State(), r) == PatchIn(old(State()), id, patch, user)
    {
      if id !in units {
        return Failure(UnitNotFound);
      }
      var unit := units[id];
      if unit.owner.Some? {
        return Failure(UnitSynced);
      }
      var before := unit;
      var applied := Apply(patch(unit.fields));
      if applied.Failure? {
        return Failure(applied.error);
      }
      unit := unit.(fields := applied.value);
      var changed := Changed(before.fields, unit.fields);
      if changed == [] {
        return Success((before, []));
      }
      unit := unit.(updatedBy := Some(user));
      if NameHeld(units, id, unit.fields.name) {
        return Failure(NameTaken);
      }
      units := units[id := unit];
      assert history == history + [];
      if !SamePosition(before.fields.position, unit.fields.position) {
        RecordPosition(id, unit.fields, Some(user));
      }
      published := published + [Updated(id, unit)];
      r := Success((unit, changed));
    }

    method Update(id: UnitId, input: Input, user: UserId) returns (r: Result<(Unit, seq<Field>), UnitError>)
      modifies this
      ensures (State(), r) == PatchIn(old(State()), id, Overwrite(UpdateTo(input)), user)
      ensures id in old(units) && Normal(old(units)[id].fields) && r.Success? ==>
                && id in units && r.value.0 == units[id]
                && units[id].fields.name == Trim(input.name)
                && PartsOf(SymbolPart, input.symbol) == Success(units[id].fields.symbol)
                && PartsOf(TacticalPart, input.tacticalName) == Success(units[id].fields.tacticalName)
                && units[id].fields.position == old(units)[id].fields.position
    {
      ghost var db := State();
      if id in units && Normal(units[id].fields) {
        PatchedFields(db, id, Overwrite(UpdateTo(input)), user);
        var f := Applied(Overwrite(UpdateTo(input))(units[id].fields));
        if f.Success? {
          UpdateOverwrites(input, units[id].fields, f.value);
        }
      }
      r := Patch(id, Overwrite(UpdateTo(input)), user);
    }

    method SetPosition(id: UnitId, p: Option<Position>, user: UserId) returns (r: Result<Unit, UnitError>)
      modifies this
      ensures State() == PatchIn(old(State()), id, Overwrite(SetPositionTo(p)), user).0
      ensures r == match PatchIn(old(State()), id, Overwrite(SetPositionTo(p)), user).1
                   case Success(pair) => Success(pair.0)
                   case Failure(e) => Failure(e)
      ensures id in old(units) && Normal(old(units)[id].fields) && r.Success? ==>
                && id in units && r.value == units[id]
                && units[id].fields == old(units)[id].fields.(position := units[id].fields.position)
                && PositionStored(p, units[id].fields.position)
    {
      ghost var db := State();
      if id in units && Normal(units[id].fields) {
        PatchedFields(db, id, Overwrite(SetPositionTo(p)), user);
        var f := Applied(Overwrite(SetPositionTo(p))(units[id].fields));
        if f.Success? {
          SetPositionOverwrites(p, units[id].fields, f.value);
        }
      }
      var patched := Patch(id, Overwrite(SetPositionTo(p)), user);
      r := match patched
        case Success(pair) => Success(pair.0)
        case Failure(e) => Failure(e);
    }

    method Delete(id: UnitId) returns (r: Result<Unit, UnitError>)
      modifies this
      ensures (State(), r) == DeleteIn(old(State()), id)
    {
      if id in units && units[id].owner.None? {
        r := Success(units[id]);
        units := units - {id};
        history := Without(history, id);
        published := published + [Deleted(id)];
      } else if id !in units {
        r := Failure(UnitNotFound);
      } else {
        r := Failure(UnitSynced);
      }
    }

    method UpsertSynced(remote: RemoteId, id: UnitId, input: Input) returns (r: Result<bool, UnitError>)
      modifies this
      ensures (State(), r) == UpsertIn(old(State()), remote, id, input)
    {
      if id !in units {
        var applied := Apply(input);
        if applied.Failure? {
          return Failure(applied.error);
        }
        if NameHeld(units, id, applied.value.name) {
          return Failure(NameTaken);
        }
        if remote !in remotes {
          return Failure(RemoteMissing);
        }
        var unit := Unit(applied.value, Some(remote), None, None);
        units := units[id := unit];
        RecordPosition(id, unit.fields, None);
        published := published + [Created(id, unit)];
        return Success(true);
      }
      var unit := units[id];
      if unit.owner != Some(remote) {
        return Failure(NotMirrored);
      }
      var before := unit;
      var applied := Apply(input);
      if applied.Failure? {
        return Failure(applied.error);
      }
      unit := unit.(fields := applied.value);
      if Changed(before.fields, unit.fields) == [] {
        return Success(false);
      }
      if NameHeld(units, id, unit.fields.name) {
        return Failure(NameTaken);
      }
      units := units[id := unit];
      assert history == history + [];
      if !SamePosition(before.fields.position, unit.fields.position) {
        RecordPosition(id, unit.fields, None);
      }
      published := published + [Updated(id, unit)];
      r := Success(true);
    }

    method DeleteSynced(remote: RemoteId, id: UnitId) returns (deleted: bool)
      modifies this
      ensures (State(), deleted) == DeleteSyncedIn(old(State()), remote, id)
    {
      if id !in units || units[id].owner != Some(remote) {
        return false;
      }
      units := units - {id};
      history := Without(history, id);
      published := published + [Deleted(id)];
      deleted := true;
    }

    /** The order of the rows is not specified. */
    method SyncedIds(remote: RemoteId) returns (ids: seq<UnitId>)
      ensures forall id :: id in ids <==> id in SyncedIdsIn(State(), remote)
      ensures forall i, j | 0 <= i < j < |ids| :: ids[i] != ids[j]
    {
      ids := [];
      var rest := set id | id in units && units[id].owner == Some(remote);
      ghost var all := rest;
      while rest != {}
        invariant forall id :: id in all <==> id in rest || id in ids
        invariant forall id | id in ids :: id !in rest
        invariant forall i, j | 0 <= i < j < |ids| :: ids[i] != ids[j]
        decreases rest
      {
        var id :| id in rest;
        ids := ids + [id];
        rest := rest - {id};
      }
    }

    method RemoveRemote(remote: RemoteId)
      modifies this
      ensures State() == RemoveRemoteIn(old(State()), remote)
    {
      units := map id | id in units :: if units[id].owner == Some(remote) then units[id].(owner := None) else units[id];
      remotes := remotes - {remote};
    }

    method DeleteHistoryBefore(cutoff: int) returns (deleted: nat)
      modifies this`history
      ensures State() == Step(old(State()), Cleanup(cutoff))
      ensures deleted == |old(history)| - |history|
    {
      var kept := Cleaned(history, cutoff);
      deleted := |history| - |kept|;
      history := kept;
    }

    /** The startup backfill: every positioned unit without history gets one entry. */
    method Backfill() returns (inserted: nat)
      modifies this`history
      ensures MissingHistory(State()) == {}
      ensures forall id | id in units && units[id].fields.position.Some? :: Newest(history, id).Some?
      ensures old(history) <= history && inserted == |history| - |old(history)| == |MissingHistory(old(State()))|
      ensures forall i | |old(history)| <= i < |history| :: BackfillOf(old(State()), history[i])
    {
      var missing := set id | id in units && units[id].fields.position.Some? && Newest(history, id).None?;
      ghost var all := missing;
      inserted := 0;
      while missing != {}
        invariant old(history) <= history && missing <= all
        invariant inserted == |history| - |old(history)| == |all| - |missing|
        invariant forall i | |old(history)| <= i < |history| :: BackfillOf(old(State()), history[i])
        invariant missing == MissingHistory(State())
        decreases missing
      {
        var id :| id in missing;
        var entry := Entry(id, units[id].fields.position.value, units[id].updatedBy);
        BackfillStep(State(), entry);
        assert id in MissingHistory(old(State())) && BackfillOf(old(State()), entry);
        history := history + [entry];
        inserted := inserted + 1;
        missing := missing - {id};
      }
      forall id | id in units && units[id].fields.position.Some? ensures Newest(history, id).Some? {
        assert id !in MissingHistory(State());
      }
    }
  }

  /** A patch that is not refused leaves what it makes of the fields. */
  lemma PatchedFields(db: Db, id: UnitId, patch: Input -> Input, user: UserId)
    requires id in db.units && Normal(db.units[id].fields)
    ensures var (db', r) := PatchIn(db, id, patch, user);
            r.Success? ==>
              && id in db'.units && r.value.0 == db'.units[id]
              && Applied(patch(db.units[id].fields)) == Success(db'.units[id].fields)
  {
    NormalForms(patch(db.units[id].fields));
    if Applied(patch(db.units[id].fields)).Success? {
      SameIsEqual(db.units[id].fields, Applied(patch(db.units[id].fields)).value);
    }
  }

  /** Entry `e` starts a unit's history with its current position. */
  predicate BackfillOf(db: Db, e: Entry) {
    && e.unit in db.units && Newest(db.history, e.unit).None?
    && db.units[e.unit].fields.position == Some(e.position) && e.recordedBy == db.units[e.unit].updatedBy
  }

  lemma BackfillStep(db: Db, e: Entry)
    ensures MissingHistory(db.(history := db.history + [e])) == MissingHistory(db) - {e.unit}
  {
    forall unit {
      NewestOfAppended(db.history, e, unit);
    }
  }
}
