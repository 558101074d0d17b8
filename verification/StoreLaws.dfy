/** What every run of store operations keeps: the database constraints and the
    normal form, the agreement of history and position, the ownership of units,
    and the event stream as a faithful copy of the unit list. */
module StoreLaws {
  import opened Wrappers
  import opened UnitFields
  import opened History
  import opened Store

  // ---------- The invariant ----------

  ghost predicate UniqueNames(units: map<UnitId, Unit>) {
    forall a, b | a in units && b in units && units[a].fields.name == units[b].fields.name :: a == b
  }

  ghost predicate NormalUnits(units: map<UnitId, Unit>) {
    forall id {:trigger Normal(units[id].fields)} | id in units :: Normal(units[id].fields)
  }

  ghost predicate OwnersStored(units: map<UnitId, Unit>, remotes: set<RemoteId>) {
    forall id | id in units && units[id].owner.Some? :: units[id].owner.value in remotes
  }

  ghost predicate EntriesHaveUnits(units: map<UnitId, Unit>, history: seq<Entry>) {
    forall e | e in history :: e.unit in units
  }

  /** A position's unit has a newest entry, and that entry is the position
      unless it was measured later than the position. */
  predicate Follows(position: Option<Position>, newest: Option<Entry>) {
    position.Some? ==>
      newest.Some? && (newest.value.position == position.value || position.value.timestamp.instant < newest.value.At())
  }

  ghost predicate HistoryFollows(units: map<UnitId, Unit>, history: seq<Entry>) {
    forall id {:trigger Newest(history, id)} | id in units :: Follows(units[id].fields.position, Newest(history, id))
  }

  ghost predicate Valid(db: Db) {
    && UniqueNames(db.units)
    && NormalUnits(db.units)
    && OwnersStored(db.units, db.remotes)
    && EntriesHaveUnits(db.units, db.history)
    && HistoryFollows(db.units, db.history)
  }

  /** Writing normal fields under a free name, with the entry their position needs. */
  lemma WriteKeepsValid(db: Db, id: UnitId, u: Unit, entries: seq<Entry>, user: Option<UserId>, published: seq<Event>)
    requires Valid(db) && Normal(u.fields) && !NameHeld(db.units, id, u.fields.name)
    requires u.owner.Some? ==> u.owner.value in db.remotes
    requires entries == EntryFor(id, u.fields, user)
        || (entries == [] && id in db.units && db.units[id].fields.position == u.fields.position)
    ensures Valid(Db(db.units[id := u], db.remotes, db.history + entries, published))
  {
    if entries == [] {
      assert db.history + entries == db.history;
    } else {
      forall unit {
        NewestOfAppended(db.history, entries[0], unit);
      }
      assert db.history + entries == db.history + [entries[0]];
    }
  }

  lemma RemovalKeepsValid(db: Db, id: UnitId)
    requires Valid(db)
    ensures Valid(RemovedFrom(db, id))
  {
    forall unit | unit != id {
      OthersWithout(db.history, id, unit);
    }
  }

  lemma CleanupKeepsValid(db: Db, cutoff: int)
    requires Valid(db)
    ensures Valid(Step(db, Cleanup(cutoff)))
  {
    forall unit {
      NewestOfCleaned(db.history, cutoff, unit);
    }
  }

  lemma UpsertKeepsValid(db: Db, remote: RemoteId, id: UnitId, input: Input)
    requires Valid(db)
    ensures Valid(UpsertIn(db, remote, id, input).0)
  {
    NormalForms(input);
    if Applied(input).Success? {
      var f := Applied(input).value;
      if id in db.units {
        SameIsEqual(db.units[id].fields, f);
      }
      if UpsertIn(db, remote, id, input).1 == Success(true) {
        var u := if id in db.units then db.units[id].(fields := f) else Unit(f, Some(remote), None, None);
        var entries := if id in db.units && SamePosition(db.units[id].fields.position, f.position) then []
            else EntryFor(id, f, None);
        WriteKeepsValid(db, id, u, entries, None, UpsertIn(db, remote, id, input).0.published);
      }
    }
  }

  lemma LocalWriteKeepsValid(db: Db, op: Op)
    requires Valid(db) && (op.Create? || op.Patch?)
    ensures Valid(Step(db, op))
  {
    match op
    case Create(id, input, user) =>
      NormalForms(input);
      if CreateIn(db, id, input, user).1.Success? {
        var u := CreateIn(db, id, input, user).1.value;
        WriteKeepsValid(db, id, u, EntryFor(id, u.fields, Some(user)), Some(user), Step(db, op).published);
      }
    case Patch(id, patch, user) =>
      var r := PatchIn(db, id, patch, user).1;
      if r.Success? && r.value.1 != [] {
        var before, u := db.units[id].fields, r.value.0;
        NormalForms(patch(before));
        SameIsEqual(before, u.fields);
        var entries := if SamePosition(before.position, u.fields.position) then []
            else EntryFor(id, u.fields, Some(user));
        WriteKeepsValid(db, id, u, entries, Some(user), Step(db, op).published);
      }
  }

  lemma StepKeepsValid(db: Db, op: Op)
    requires Valid(db)
    ensures Valid(Step(db, op))
  {
    match op
    case Create(_, _, _) => LocalWriteKeepsValid(db, op);
    case Patch(_, _, _) => LocalWriteKeepsValid(db, op);
    case Delete(id) => RemovalKeepsValid(db, id);
    case UpsertSynced(remote, id, input) => UpsertKeepsValid(db, remote, id, input);
    case DeleteSynced(_, id) => RemovalKeepsValid(db, id);
    case AddRemote(_) =>
    case RemoveRemote(_) =>
    case Cleanup(cutoff) => CleanupKeepsValid(db, cutoff);
  }

  lemma {:induction false} RunKeepsValid(db: Db, ops: seq<Op>)
    requires Valid(db)
    ensures Valid(Run(db, ops))
    decreases |ops|
  {
    if ops != [] {
      StepKeepsValid(db, ops[0]);
      RunKeepsValid(Step(db, ops[0]), ops[1..]);
    }
  }

  lemma {:induction false} RunConcat(db: Db, first: seq<Op>, second: seq<Op>)
    ensures Run(db, first + second) == Run(Run(db, first), second)
    decreases |first|
  {
    if first == [] {
      assert first + second == second;
    } else {
      var both := first + second;
      assert both[0] == first[0] && both[1..] == first[1..] + second;
      RunConcat(Step(db, first[0]), first[1..], second);
    }
  }

  lemma RunAppend(db: Db, ops: seq<Op>, op: Op)
    ensures Run(db, ops + [op]) == Step(Run(db, ops), op)
  {
    RunConcat(db, ops, [op]);
    assert Run(Run(db, ops), [op]) == Run(Step(Run(db, ops), op), []);
  }

  lemma EmptyIsValid()
    ensures Valid(EMPTY)
  {
  }

  // ---------- Doing nothing, and doing two things ----------

  function Unchanged(f: Input): Input { f }

  /** In every reachable store an identity patch, and mirroring again what the
      unit already has, write, record and publish nothing. */
  lemma RepeatingChangesNothing(ops: seq<Op>, id: UnitId, user: UserId)
    requires id in Run(EMPTY, ops).units
    ensures var db := Run(EMPTY, ops);
            var unit := db.units[id];
            if unit.owner.None? then PatchIn(db, id, Unchanged, user) == (db, Success((unit, [])))
            else UpsertIn(db, unit.owner.value, id, Response(id, unit.fields).ToInput()) == (db, Success(false))
  {
    EmptyIsValid();
    RunKeepsValid(EMPTY, ops);
    var f := Run(EMPTY, ops).units[id].fields;
    NormalForms(f);
    SameIsEqual(f, f);
    MirrorReproduces(id, f);
  }

  /** A patch succeeds exactly for a local unit, fields that can be applied and a
      name no other unit has, and leaves what applying yields. */
  lemma PatchedFields(db: Db, id: UnitId, patch: Input -> Input, user: UserId)
    requires Valid(db)
    ensures var (db', r) := PatchIn(db, id, patch, user);
            && (r.Success? <==>
                  && id in db.units && db.units[id].owner.None?
                  && Applied(patch(db.units[id].fields)).Success?
                  && !NameHeld(db.units, id, Applied(patch(db.units[id].fields)).value.name))
            && (r.Success? ==>
                  && db'.units == db.units[id := r.value.0] && r.value.0.owner.None?
                  && Applied(patch(db.units[id].fields)) == Success(r.value.0.fields))
  {
    if id in db.units && db.units[id].owner.None? && Applied(patch(db.units[id].fields)).Success? {
      NormalForms(patch(db.units[id].fields));
      SameIsEqual(db.units[id].fields, Applied(patch(db.units[id].fields)).value);
      assert db.units[id := db.units[id]] == db.units;
    }
  }

  /** The unit after two operations, each by its own user. */
  function PatchTwice(db: Db, id: UnitId, first: Edit, user1: UserId, second: Edit, user2: UserId): Result<Unit,
        UnitError>
  {
    var (db1, r1) := PatchIn(db, id, Overwrite(first), user1);
    var (db2, r2) := PatchIn(db1, id, Overwrite(second), user2);
    match (r1, r2)
    case (Failure(e), _) => Failure(e)
    case (_, Failure(e)) => Failure(e)
    case (_, Success((unit, _))) => Success(unit)
  }

  /** The unit is a local one, and no other has the name it would end up with. */
  predicate CanBecome(db: Db, id: UnitId, f: Input) {
    id in db.units && db.units[id].owner.None? && !NameHeld(db.units, id, f.name)
  }

  lemma NameAfterEdit(f: Input, e: Edit)
    requires Normal(f) && Applied(Overwrite(e)(f)).Success?
    ensures e.name.None? ==> Applied(Overwrite(e)(f)).value.name == f.name
  {
    NormalFieldwise(f);
    AppliedFieldwise(Overwrite(e)(f), Applied(Overwrite(e)(f)).value);
  }

  lemma PatchTwiceIsBoth(db: Db, id: UnitId, first: Edit, user1: UserId, second: Edit, user2: UserId)
    requires Valid(db) && id in db.units && db.units[id].owner.None? && Disjoint(first, second)
    ensures var both, r := Both(db.units[id].fields, first, second), PatchTwice(db, id, first, user1, second, user2);
            && (r.Success? <==> both.Success? && CanBecome(db, id, both.value))
            && (r.Success? ==> r.value.fields == both.value)
  {
    var f := db.units[id].fields;
    PatchedFields(db, id, Overwrite(first), user1);
    if Applied(Overwrite(first)(f)).Success? {
      var g := Applied(Overwrite(first)(f)).value;
      NormalForms(Overwrite(first)(f));
      NameAfterEdit(f, first);
      if Both(f, first, second).Success? {
        NameAfterEdit(g, second);
      }
      assert NameHeld(db.units, id, g.name) ==> first.name.Some? && second.name.None?;
      if PatchIn(db, id, Overwrite(first), user1).1.Success? {
        var db1 := PatchIn(db, id, Overwrite(first), user1).0;
        LocalWriteKeepsValid(db, Op.Patch(id, Overwrite(first), user1));
        PatchedFields(db1, id, Overwrite(second), user2);
        if Both(f, first, second).Success? {
          OthersHoldTheSame(db.units, db1.units, id, Both(f, first, second).value.name);
        }
      }
    }
  }

  lemma OthersHoldTheSame(units: map<UnitId, Unit>, units': map<UnitId, Unit>, id: UnitId, name: string)
    requires id in units && id in units' && units' == units[id := units'[id]]
    ensures NameHeld(units', id, name) <==> NameHeld(units, id, name)
  {
    if NameHeld(units, id, name) {
      var k :| k in units && k != id && units[k].fields.name == name;
      assert k in units' && units'[k] == units[k];
    }
  }

  /** Two operations on disjoint fields succeed in one order exactly if they do in
      the other, and then leave the unit with the same fields. */
  lemma PatchesCommute(db: Db, id: UnitId, p: Edit, user1: UserId, q: Edit, user2: UserId)
    requires Valid(db) && Disjoint(p, q)
    ensures var pq, qp := PatchTwice(db, id, p, user1, q, user2), PatchTwice(db, id, q, user2, p, user1);
            && (pq.Success? <==> qp.Success?)
            && (pq.Success? ==> pq.value.fields == qp.value.fields)
  {
    if id in db.units && db.units[id].owner.None? {
      PatchTwiceIsBoth(db, id, p, user1, q, user2);
      PatchTwiceIsBoth(db, id, q, user2, p, user1);
      EditsCommute(db.units[id].fields, p, q);
    }
  }

  // ---------- History and position ----------

  /** In every reachable store the startup backfill finds nothing to insert. */
  lemma BackfillFindsNothing(ops: seq<Op>)
    ensures MissingHistory(Run(EMPTY, ops)) == {}
  {
    EmptyIsValid();
    RunKeepsValid(EMPTY, ops);
  }

  /** The unit's newest history entry is its current position. */
  predicate NewestIsCurrent(db: Db, id: UnitId) {
    id in db.units && db.units[id].fields.position.Some? ==>
      Newest(db.history, id).Some? && Newest(db.history, id).value.position == db.units[id].fields.position.value
  }

  /** In every reachable store: exactly if no entry was measured after it. */
  lemma NewestIsCurrentIff(ops: seq<Op>, id: UnitId)
    requires id in Run(EMPTY, ops).units && Run(EMPTY, ops).units[id].fields.position.Some?
    ensures var db := Run(EMPTY, ops);
            NewestIsCurrent(db, id) <==>
            forall e | e in db.history && e.unit == id :: e.At() <= db.units[id].fields.position.value.timestamp.instant
  {
    EmptyIsValid();
    RunKeepsValid(EMPTY, ops);
    var db := Run(EMPTY, ops);
    assert Follows(db.units[id].fields.position, Newest(db.history, id));
    var g := NewestIsNewest(db.history, id);
    assert db.history[g] in db.history;
  }

  /** The step records no position of the unit measured before its newest entry. */
  predicate Timely(db: Db, op: Op, id: UnitId) {
    var h, h' := db.history, Step(db, op).history;
    |h'| > |h| && h'[|h|].unit == id && Newest(h, id).Some? ==> Newest(h, id).value.At() <= h'[|h|].At()
  }

  predicate AllTimely(db: Db, ops: seq<Op>, id: UnitId)
    decreases |ops|
  {
    ops == [] || (Timely(db, ops[0], id) && AllTimely(Step(db, ops[0]), ops[1..], id))
  }

  /** What a step does to a unit that is still there: leave its position and its
      newest entry alone, clear the position, or set it and record that. */
  ghost predicate PositionStep(db: Db, db': Db, id: UnitId) {
    id in db'.units ==>
      || (id in db.units && db'.units[id].fields.position == db.units[id].fields.position
          && Newest(db'.history, id) == Newest(db.history, id))
      || db'.units[id].fields.position.None?
      || exists user :: db'.history == db.history + EntryFor(id, db'.units[id].fields, user)
  }

  lemma WriteIsPositionStep(db: Db, db': Db, id: UnitId, f: Input, entries: seq<Entry>, user: Option<UserId>,
        other: UnitId)
    requires id in db'.units && db'.units[id].fields == f && db'.history == db.history + entries
    requires entries == EntryFor(id, f, user)
        || (entries == [] && id in db.units && db.units[id].fields.position == f.position)
    requires other != id ==>
        (other in db'.units <==> other in db.units) && (other in db.units ==> db'.units[other] == db.units[other])
    ensures PositionStep(db, db', other)
  {
    if entries == [] {
      assert db.history + [] == db.history;
    } else {
      assert entries == [entries[0]];
      NewestOfAppended(db.history, entries[0], other);
    }
  }

  lemma CreateIsPositionStep(db: Db, u: UnitId, input: Input, user: UserId, id: UnitId)
    requires Valid(db)
    ensures PositionStep(db, CreateIn(db, u, input, user).0, id)
  {
    var (db', r) := CreateIn(db, u, input, user);
    if r.Success? {
      var f := db'.units[u].fields;
      WriteIsPositionStep(db, db', u, f, EntryFor(u, f, Some(user)), Some(user), id);
    }
  }

  lemma PatchIsPositionStep(db: Db, u: UnitId, patch: Input -> Input, user: UserId, id: UnitId)
    requires Valid(db)
    ensures PositionStep(db, PatchIn(db, u, patch, user).0, id)
  {
    var (db', r) := PatchIn(db, u, patch, user);
    if r.Success? && r.value.1 != [] {
      var before, f := db.units[u].fields, db'.units[u].fields;
      NormalForms(patch(before));
      SameIsEqual(before, f);
      WriteIsPositionStep(db, db', u, f, if SamePosition(before.position, f.position) then []
          else EntryFor(u, f, Some(user)), Some(user), id);
    }
  }

  lemma StepIsPositionStep(db: Db, op: Op, id: UnitId)
    requires Valid(db)
    ensures PositionStep(db, Step(db, op), id)
  {
    match op
    case Create(u, input, user) => CreateIsPositionStep(db, u, input, user, id);
    case Patch(u, patch, user) => PatchIsPositionStep(db, u, patch, user, id);
    case UpsertSynced(remote, u, input) => UpsertIsPositionStep(db, remote, u, input, id);
    case Delete(u) => RemovalIsPositionStep(db, u, id);
    case DeleteSynced(_, u) => RemovalIsPositionStep(db, u, id);
    case AddRemote(_) =>
    case RemoveRemote(_) =>
    case Cleanup(cutoff) => NewestOfCleaned(db.history, cutoff, id);
  }

  lemma RemovalIsPositionStep(db: Db, gone: UnitId, id: UnitId)
    ensures PositionStep(db, RemovedFrom(db, gone), id)
    ensures PositionStep(db, db, id)
  {
    if gone != id {
      OthersWithout(db.history, gone, id);
    }
  }

  lemma UpsertIsPositionStep(db: Db, remote: RemoteId, u: UnitId, input: Input, id: UnitId)
    requires Valid(db)
    ensures PositionStep(db, UpsertIn(db, remote, u, input).0, id)
  {
    var db' := UpsertIn(db, remote, u, input).0;
    if UpsertIn(db, remote, u, input).1 == Success(true) {
      var f := db'.units[u].fields;
      NormalForms(input);
      if u in db.units {
        SameIsEqual(db.units[u].fields, f);
      }
      var same := u in db.units && SamePosition(db.units[u].fields.position, f.position);
      WriteIsPositionStep(db, db', u, f, if same then [] else EntryFor(u, f, None), None, id);
    }
  }

  /** While the unit's positions arrive in the order they were measured, its
      newest entry is its current position: over every run, cleanups included. */
  lemma {:induction false} NewestStaysCurrent(db: Db, ops: seq<Op>, id: UnitId)
    requires Valid(db) && NewestIsCurrent(db, id) && AllTimely(db, ops, id)
    ensures NewestIsCurrent(Run(db, ops), id)
    decreases |ops|
  {
    if ops != [] {
      var db' := Step(db, ops[0]);
      StepKeepsValid(db, ops[0]);
      StepIsPositionStep(db, ops[0], id);
      if id in db'.units && db'.units[id].fields.position.Some? {
        if user :| db'.history == db.history + EntryFor(id, db'.units[id].fields, user) {
          NewestOfAppended(db.history, EntryFor(id, db'.units[id].fields, user)[0], id);
        }
      }
      NewestStaysCurrent(db', ops[1..], id);
    }
  }

  /** The unit's current position is somewhere in its history. */
  predicate Recorded(db: Db, id: UnitId) {
    id in db.units && db.units[id].fields.position.Some? ==>
        HasPosition(db.history, id, db.units[id].fields.position.value)
  }

  lemma CleanedHas(h: seq<Entry>, cutoff: int, i: nat)
    requires i < |h| && Kept(h, cutoff, i)
    ensures exists j | 0 <= j < |Cleaned(h, cutoff)| :: Cleaned(h, cutoff)[j] == h[i]
  {
    assert h[i] in Cleaned(h, cutoff);
  }

  lemma CleanedComesFrom(h: seq<Entry>, cutoff: int, j: nat) returns (i: nat)
    requires j < |Cleaned(h, cutoff)|
    ensures i < |h| && h[i] == Cleaned(h, cutoff)[j] && Kept(h, cutoff, i)
  {
    var e := Cleaned(h, cutoff)[j];
    assert e in Cleaned(h, cutoff);
    i :| 0 <= i < |h| && h[i] == e && Kept(h, cutoff, i);
  }

  predicate HasPosition(h: seq<Entry>, id: UnitId, p: Position) {
    exists i | 0 <= i < |h| :: h[i].unit == id && h[i].position == p
  }

  lemma CleanedHasPositionIff(h: seq<Entry>, cutoff: int, id: UnitId, p: Position)
    requires HasPosition(h, id, p)
    ensures Newest(h, id).Some?
    ensures HasPosition(Cleaned(h, cutoff), id, p) <==>
        p.timestamp.instant >= cutoff || Newest(h, id).value.position == p
  {
    var i :| 0 <= i < |h| && h[i].unit == id && h[i].position == p;
    var g := NewestIsNewest(h, id);
    if p.timestamp.instant >= cutoff {
      CleanedHas(h, cutoff, i);
    }
    if h[g].position == p {
      CleanedHas(h, cutoff, g);
    }
    if HasPosition(Cleaned(h, cutoff), id, p) && p.timestamp.instant < cutoff {
      var j :| 0 <= j < |Cleaned(h, cutoff)| && Cleaned(h, cutoff)[j].unit == id && Cleaned(h, cutoff)[j].position == p;
      var k := CleanedComesFrom(h, cutoff, j);
      NewestIsUnique(h, k);
    }
  }

  /** A cleanup leaves the current position in the history exactly if it was
      measured at or after the cutoff or is the newest entry. */
  lemma CleanupKeepsRecordedIff(db: Db, cutoff: int, id: UnitId)
    requires id in db.units && db.units[id].fields.position.Some? && Recorded(db, id)
    ensures Recorded(Step(db, Cleanup(cutoff)), id) <==>
              db.units[id].fields.position.value.timestamp.instant >= cutoff || NewestIsCurrent(db, id)
  {
    CleanedHasPositionIff(db.history, cutoff, id, db.units[id].fields.position.value);
  }

  function PositionAt(instant: int): Position {
    Position(Num(1.0), Num(2.0), None, None, None, None, Time(instant, 0))
  }

  function NamedAt(p: Option<Position>): Input {
    Input("a", p, None, None)
  }

  lemma NamedAtIsNormal(instant: int)
    ensures Applied(NamedAt(None)) == Success(NamedAt(None))
    ensures Applied(NamedAt(Some(PositionAt(instant)))) == Success(NamedAt(Some(PositionAt(instant))))
  {
    NormalForms(NamedAt(None));
    NormalForms(NamedAt(Some(PositionAt(instant))));
  }

  lemma MovingTheUnit(db: Db, instant: int)
    requires 1 in db.units && db.units.Keys == {1} && db.units[1].fields.name == "a" && db.units[1].owner.None?
    requires db.units[1].fields == NamedAt(db.units[1].fields.position)
    requires db.units[1].fields.position.None? || db.units[1].fields.position.value.timestamp.instant != instant
    ensures var db' := Step(db, Op.Patch(1, Overwrite(SetPositionTo(Some(PositionAt(instant)))), 0));
            && db'.units == map[1 := Unit(NamedAt(Some(PositionAt(instant))), None, db.units[1].createdBy, Some(0))]
            && db'.history == db.history + [Entry(1, PositionAt(instant), Some(0))]
  {
    NamedAtIsNormal(instant);
    assert Overwrite(SetPositionTo(Some(PositionAt(instant))))(db.units[1].fields) ==
        NamedAt(Some(PositionAt(instant)));
    assert !NameHeld(db.units, 1, "a");
  }

  /** The documented promise that the current position stays in the history
      fails for a position measured before an earlier one: set 10, set 5, clean 7. */
  lemma CleanupCanDropCurrent() returns (ops: seq<Op>)
    ensures var db := Run(EMPTY, ops);
            && 1 in db.units && db.units[1].fields.position.Some?
            && Recorded(db, 1) && !Recorded(Step(db, Cleanup(7)), 1)
  {
    var create, move10, move5 :=
      Op.Create(1, NamedAt(None), 0),
      Op.Patch(1, Overwrite(SetPositionTo(Some(PositionAt(10)))), 0),
      Op.Patch(1, Overwrite(SetPositionTo(Some(PositionAt(5)))), 0);
    NamedAtIsNormal(0);
    var db1 := Step(EMPTY, create);
    assert db1.units == map[1 := Unit(NamedAt(None), None, Some(0), Some(0))];
    assert db1.history == [];
    MovingTheUnit(db1, 10);
    var db2 := Step(db1, move10);
    MovingTheUnit(db2, 5);
    var db3 := Step(db2, move5);
    ops := [create, move10, move5];
    assert Run(EMPTY, ops) == db3 by {
      assert ops[1..] == [move10, move5] && [move10, move5][1..] == [move5];
      assert Run(db2, [move5]) == db3;
    }
    assert db3.history == [Entry(1, PositionAt(10), Some(0)), Entry(1, PositionAt(5), Some(0))];
    assert db3.history[1].position == PositionAt(5);
    assert IsNewest(db3.history, 0);
    NewestIsUnique(db3.history, 0);
    CleanupKeepsRecordedIff(db3, 7, 1);
  }
}
