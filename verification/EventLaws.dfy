/** The published events are a faithful copy of the unit list: replaying them
    over a listing gives the later listing, and nothing is published for nothing. */
module EventLaws {
  import opened Wrappers
  import opened UnitFields
  import opened Store
  import opened StoreLaws

  type Listing = map<UnitId, Input>

  /** The editable fields of every unit, as a listing serves them. */
  function View(units: map<UnitId, Unit>): Listing {
    map id | id in units :: units[id].fields
  }

  function ApplyEvent(m: Listing, ev: Event): Listing {
    match ev
    case Created(id, unit) => m[id := unit.fields]
    case Updated(id, unit) => m[id := unit.fields]
    case Deleted(id) => m - {id}
  }

  function Replay(m: Listing, events: seq<Event>): Listing {
    if events == [] then m else ApplyEvent(Replay(m, events[..|events| - 1]), events[|events| - 1])
  }

  lemma ReplayAppend(m: Listing, events: seq<Event>, ev: Event)
    ensures Replay(m, events + [ev]) == ApplyEvent(Replay(m, events), ev)
  {
    assert (events + [ev])[..|events|] == events;
  }

  lemma {:induction false} ReplayConcat(m: Listing, first: seq<Event>, second: seq<Event>)
    ensures Replay(m, first + second) == Replay(Replay(m, first), second)
  {
    if second == [] {
      assert first + second == first;
    } else {
      var init := second[..|second| - 1];
      ReplayConcat(m, first, init);
      assert (first + second)[..|first + second| - 1] == first + init;
    }
  }

  /** The event tells a change of the listing, of the kind it says. */
  predicate Fits(m: Listing, ev: Event) {
    match ev
    case Created(id, _) => id !in m
    case Updated(id, unit) => id in m && m[id] != unit.fields
    case Deleted(id) => id in m
  }

  /** This event was published, and it tells the whole change of the listing. */
  predicate TellsBy(db: Db, db': Db, ev: Event) {
    && db'.published == db.published + [ev]
    && Fits(View(db.units), ev) && View(db'.units) == ApplyEvent(View(db.units), ev)
  }

  /** One step: at most one event, which tells the whole change of the listing. */
  ghost predicate Tells(db: Db, db': Db) {
    || (db'.published == db.published && View(db'.units) == View(db.units))
    || exists ev :: TellsBy(db, db', ev)
  }

  lemma EventTells(db: Db, db': Db, ev: Event)
    requires db'.published == db.published + [ev] && Fits(View(db.units), ev)
    requires db'.units == match ev
                          case Created(id, unit) => db.units[id := unit]
                          case Updated(id, unit) => db.units[id := unit]
                          case Deleted(id) => db.units - {id}
    ensures Tells(db, db')
  {
    assert View(db'.units) == ApplyEvent(View(db.units), ev);
    assert TellsBy(db, db', ev);
  }

  lemma LocalStepTells(db: Db, op: Op)
    requires Valid(db) && (op.Create? || op.Patch?)
    ensures Tells(db, Step(db, op))
  {
    match op
    case Create(id, input, user) =>
      var r := CreateIn(db, id, input, user).1;
      if r.Success? {
        EventTells(db, Step(db, op), Created(id, r.value));
      }
    case Patch(id, patch, user) =>
      var r := PatchIn(db, id, patch, user).1;
      if r.Success? && r.value.1 != [] {
        NormalForms(patch(db.units[id].fields));
        SameIsEqual(db.units[id].fields, r.value.0.fields);
        EventTells(db, Step(db, op), Updated(id, r.value.0));
      }
  }

  lemma UpsertTells(db: Db, remote: RemoteId, id: UnitId, input: Input)
    requires Valid(db)
    ensures Tells(db, UpsertIn(db, remote, id, input).0)
  {
    var db' := UpsertIn(db, remote, id, input).0;
    if UpsertIn(db, remote, id, input).1 == Success(true) {
      if id in db.units {
        NormalForms(input);
        SameIsEqual(db.units[id].fields, db'.units[id].fields);
        EventTells(db, db', Updated(id, db'.units[id]));
      } else {
        EventTells(db, db', Created(id, db'.units[id]));
      }
    }
  }

  lemma StepTells(db: Db, op: Op)
    requires Valid(db)
    ensures Tells(db, Step(db, op))
  {
    match op
    case Create(_, _, _) => LocalStepTells(db, op);
    case Patch(_, _, _) => LocalStepTells(db, op);
    case UpsertSynced(remote, id, input) => UpsertTells(db, remote, id, input);
    case Delete(id) =>
      if DeleteIn(db, id).1.Success? {
        EventTells(db, Step(db, op), Deleted(id));
      }
    case DeleteSynced(remote, id) =>
      if DeleteSyncedIn(db, remote, id).1 {
        EventTells(db, Step(db, op), Deleted(id));
      }
    case AddRemote(_) =>
    case RemoveRemote(_) =>
    case Cleanup(_) =>
  }

  /** A step that changes no editable field publishes nothing, and only such a step. */
  lemma StepPublishesIff(db: Db, op: Op)
    requires Valid(db)
    ensures Step(db, op).published == db.published <==> View(Step(db, op).units) == View(db.units)
  {
    StepTells(db, op);
    if ev :| TellsBy(db, Step(db, op), ev) {
      assert |Step(db, op).published| == |db.published| + 1;
      assert ev.id in View(Step(db, op).units) <==> !ev.Deleted?;
    }
  }

  /** What a step published, replayed over the listing before it. */
  lemma StepReplays(db: Db, op: Op)
    requires Valid(db)
    ensures db.published <= Step(db, op).published
    ensures Replay(View(db.units), Step(db, op).published[|db.published|..]) == View(Step(db, op).units)
  {
    var db' := Step(db, op);
    StepTells(db, op);
    if ev :| TellsBy(db, db', ev) {
      assert db'.published[|db.published|..] == [] + [ev];
      ReplayAppend(View(db.units), [], ev);
    }
  }

  lemma SuffixSplits<T>(a: seq<T>, b: seq<T>, c: seq<T>)
    requires a <= b && b <= c
    ensures a <= c && c[|a|..] == b[|a|..] + c[|b|..]
  {
  }

  /** Event replay equals the store: what was published after a subscription,
      replayed over the listing at the subscription, is the listing now. */
  lemma {:induction false} RunReplays(db: Db, ops: seq<Op>)
    requires Valid(db)
    ensures db.published <= Run(db, ops).published
    ensures View(Run(db, ops).units) == Replay(View(db.units), Run(db, ops).published[|db.published|..])
    decreases |ops|
  {
    if ops != [] {
      var db1, db2 := Step(db, ops[0]), Run(db, ops);
      StepReplays(db, ops[0]);
      StepKeepsValid(db, ops[0]);
      RunReplays(db1, ops[1..]);
      SuffixSplits(db.published, db1.published, db2.published);
      ReplayConcat(View(db.units), db1.published[|db.published|..], db2.published[|db1.published|..]);
    }
  }
}
