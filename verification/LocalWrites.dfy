/** What users' operations on one unit do, and whose name is put to a change. */
module LocalWrites {
  import opened Wrappers
  import opened UnitFields
  import opened History
  import opened Store
  import opened StoreLaws
  import opened Passes

  /** A create answers with the unit it stored, or changes nothing. */
  lemma CreateAnswer(db: Db, id: UnitId, input: Input, user: UserId)
    ensures var (db', r) := CreateIn(db, id, input, user);
            && (r.Success? <==>
                Applied(input).Success? && id !in db.units && !NameHeld(db.units, id, Applied(input).value.name))
            && (r.Failure? ==>
                db' == db && r.error == if Applied(input).Failure? then Applied(input).error else NameTaken)
            && (r.Success? ==>
                  && OnlyChanges(db.units, db'.units, id) && id in db'.units && r.value == db'.units[id]
                  && Applied(input) == Success(db'.units[id].fields) && db'.units[id].owner == None)
  {
  }

  /** A patch is refused for the first of these reasons and then changes nothing;
      otherwise it answers with the unit and the fields that differ. */
  lemma PatchAnswer(db: Db, id: UnitId, patch: Input -> Input, user: UserId)
    requires Valid(db)
    ensures var (db', r) := PatchIn(db, id, patch, user);
            && (r.Failure? ==> db' == db)
            && OnlyChanges(db.units, db'.units, id)
            && if id !in db.units then r == Failure(UnitNotFound)
               else if db.units[id].owner.Some? then r == Failure(UnitSynced)
               else
                 match Applied(patch(db.units[id].fields))
                 case Failure(e) => r == Failure(e)
                 case Success(f) =>
                   if NameHeld(db.units, id, f.name) then r == Failure(NameTaken)
                   else
                     && r.Success? && id in db'.units && r.value.0 == db'.units[id]
                     && db'.units[id].fields == f && db'.units[id].owner == None
                     && forall field :: field in r.value.1 <==> Differs(field, db.units[id].fields, f)
  {
    if id in db.units {
      var before := db.units[id].fields;
      NormalForms(patch(before));
      if Applied(patch(before)).Success? {
        var f := Applied(patch(before)).value;
        SameIsEqual(before, f);
        forall field ensures field in Changed(before, f) <==> Differs(field, before, f) {
          ChangedExactly(before, f, field);
        }
      }
    }
  }

  /** A delete takes exactly a local unit, and answers with it as it was. */
  lemma DeleteAnswer(db: Db, id: UnitId)
    ensures var (db', r) := DeleteIn(db, id);
            && (r.Success? <==> id in db.units && id !in db'.units)
            && (id in db.units && db.units[id].owner.None? ==>
                  && id !in db'.units && r == Success(db.units[id]) && OnlyChanges(db.units, db'.units, id)
                  && EntriesOf(db'.history, id) == [] && db'.published == db.published + [Deleted(id)])
            && (id !in db.units ==> r == Failure(UnitNotFound) && db' == db)
            && (id in db.units && db.units[id].owner.Some? ==> r == Failure(UnitSynced) && db' == db)
  {
    NoEntriesIff(Without(db.history, id), id);
  }

  lemma {:induction false} NoEntriesIff(h: seq<Entry>, id: UnitId)
    ensures EntriesOf(h, id) == [] <==> forall e | e in h :: e.unit != id
  {
    if h != [] {
      var init, last := h[..|h| - 1], h[|h| - 1];
      assert h == init + [last];
      NoEntriesIff(init, id);
    }
  }

  // ---------- Who changed what ----------

  /** The user an operation is by; nobody, for what is mirrored. */
  function UserOf(op: Op): Option<UserId> {
    if op.Create? || op.Patch? then Some(op.user) else None
  }

  function PositionOfUnit(db: Db, id: UnitId): Option<Position> {
    if id in db.units then db.units[id].fields.position else None
  }

  /** The unit's history has one entry more, for a new position, or is the same. */
  predicate Records(db: Db, db': Db, id: UnitId, user: Option<UserId>) {
    var before, after := PositionOfUnit(db, id), PositionOfUnit(db', id);
    EntriesOf(db'.history, id) ==
      EntriesOf(db.history, id) + if after.Some? && after != before then [Entry(id, after.value, user)] else []
  }

  /** The unit's first writer stays; its last one is whoever changed a field here. */
  predicate Attributes(db: Db, db': Db, op: Op, id: UnitId) {
    id in db'.units ==>
      if id !in db.units then db'.units[id].createdBy == db'.units[id].updatedBy == UserOf(op)
      else
        && db'.units[id].createdBy == db.units[id].createdBy
        && db'.units[id].updatedBy ==
             if op.Patch? && db'.units[id].fields != db.units[id].fields then UserOf(op) else db.units[id].updatedBy
  }

  lemma WriteRecords(db: Db, db': Db, u: UnitId, entries: seq<Entry>, user: Option<UserId>, id: UnitId)
    requires u in db'.units && OnlyChanges(db.units, db'.units, u) && db'.history == db.history + entries
    requires entries ==
        if PositionOfUnit(db', u) == PositionOfUnit(db, u) then [] else EntryFor(u, db'.units[u].fields, user)
    ensures Records(db, db', id, user)
  {
    if entries == [] {
      assert db.history + [] == db.history;
    } else {
      NewestOfAppended(db.history, entries[0], id);
    }
  }

  lemma CreateRecords(db: Db, op: Op, id: UnitId)
    requires Valid(db) && op.Create?
    ensures Records(db, Step(db, op), id, UserOf(op)) && Attributes(db, Step(db, op), op, id)
  {
    var (db', r) := CreateIn(db, op.id, op.input, op.user);
    if r.Success? {
      WriteRecords(db, db', op.id, EntryFor(op.id, r.value.fields, UserOf(op)), UserOf(op), id);
    }
  }

  lemma PatchAttributes(db: Db, op: Op, id: UnitId)
    requires Valid(db) && op.Patch?
    ensures Attributes(db, Step(db, op), op, id)
  {
    if op.id in db.units {
      var before := db.units[op.id].fields;
      NormalForms(op.patch(before));
      if Applied(op.patch(before)).Success? {
        SameIsEqual(before, Applied(op.patch(before)).value);
      }
    }
  }

  lemma PatchRecords(db: Db, op: Op, id: UnitId)
    requires Valid(db) && op.Patch?
    ensures Records(db, Step(db, op), id, UserOf(op))
  {
    var (db', r) := PatchIn(db, op.id, op.patch, op.user);
    if r.Success? {
      var before, f := db.units[op.id].fields, r.value.0.fields;
      NormalForms(op.patch(before));
      SameIsEqual(before, Applied(op.patch(before)).value);
      assert db.history + [] == db.history;
      WriteRecords(db, db', op.id, if before.position == f.position then [] else EntryFor(op.id, f, UserOf(op)),
          UserOf(op), id);
    }
  }

  lemma UpsertRecords(db: Db, op: Op, id: UnitId)
    requires Valid(db) && op.UpsertSynced?
    ensures Records(db, Step(db, op), id, UserOf(op)) && Attributes(db, Step(db, op), op, id)
  {
    var (db', r) := UpsertIn(db, op.remote, op.id, op.input);
    UpsertEffect(db, op.remote, op.id, op.input);
    if r.Success? {
      var f := Applied(op.input).value;
      NormalForms(op.input);
      assert db.history + [] == db.history;
      if op.id in db.units {
        SameIsEqual(db.units[op.id].fields, f);
      }
      WriteRecords(db, db', op.id, if PositionOfUnit(db, op.id) == f.position then [] else EntryFor(op.id, f, None),
          None, id);
    }
  }

  lemma RemovalRecords(db: Db, removed: UnitId, id: UnitId)
    requires id != removed
    ensures EntriesOf(RemovedFrom(db, removed).history, id) == EntriesOf(db.history, id)
  {
    OthersWithout(db.history, removed, id);
  }

  /** Each operation but a cleanup adds to a unit's history exactly the new position
      it gave the unit, under the name of whoever did it, and only a user's change
      of a field puts that user's name to the unit. */
  lemma StepIsAttributed(db: Db, op: Op, id: UnitId)
    requires Valid(db) && id in Step(db, op).units && !op.Cleanup?
    ensures Records(db, Step(db, op), id, UserOf(op)) && Attributes(db, Step(db, op), op, id)
  {
    match op
    case Create(_, _, _) => CreateRecords(db, op, id);
    case Patch(_, _, _) =>
      PatchRecords(db, op, id);
      PatchAttributes(db, op, id);
    case UpsertSynced(_, _, _) => UpsertRecords(db, op, id);
    case Delete(u) => if u != id { RemovalRecords(db, u, id); }
    case DeleteSynced(_, u) => if u != id { RemovalRecords(db, u, id); }
    case _ =>
  }

  /** Only adding and removing a remote changes which ones there are. */
  lemma RemotesChange(db: Db, op: Op, remote: RemoteId)
    ensures remote in Step(db, op).remotes <==>
        op == AddRemote(remote) || (remote in db.remotes && op != Op.RemoveRemote(remote))
  {
  }
}
