/** The worker of one sync remote: the full pass, the application of one event,
    and the one-slot trigger. Passes and events exclude each other (a mutex in
    the source), so each method runs from start to end on an unchanging store. */
module Worker {
  import opened Wrappers
  import opened UnitFields
  import opened Store
  import opened StoreLaws
  import opened Passes

  /** A message on the remote's event stream; `Other` is any type not known. */
  datatype RemoteEvent =
    | Upsert(unit: Option<RemoteUnit>)  // created or updated
    | Gone(id: UnitId)
    | Other

  /** How each upsert of a pass over `list` ended. */
  function Attempts(db: Db, remote: RemoteId, list: seq<RemoteUnit>): (r: seq<Result<bool, UnitError>>)
    ensures |r| == |list| && forall i | 0 <= i < |list| :: r[i] == Attempt(db, remote, list, i)
  {
    seq(|list|, i requires 0 <= i < |list| => Attempt(db, remote, list, i))
  }

  /** The errors among the first `n` attempts, in order. */
  function Errors(list: seq<RemoteUnit>, attempts: seq<Result<bool, UnitError>>, n: nat): seq<(UnitId, UnitError)>
    requires n <= |list| == |attempts|
  {
    if n == 0 then []
    else Errors(list, attempts, n - 1) + if IsError(attempts[n - 1]) then [(list[n - 1].id, attempts[n - 1].error)]
        else []
  }

  function CountChanged(attempts: seq<Result<bool, UnitError>>, n: nat): nat
    requires n <= |attempts|
  {
    if n == 0 then 0 else CountChanged(attempts, n - 1) + if attempts[n - 1] == Success(true) then 1 else 0
  }

  lemma {:induction false} NoErrorsIff(list: seq<RemoteUnit>, attempts: seq<Result<bool, UnitError>>, n: nat)
    requires n <= |list| == |attempts|
    ensures Errors(list, attempts, n) == [] <==> forall i | 0 <= i < n :: !IsError(attempts[i])
  {
    if n > 0 {
      NoErrorsIff(list, attempts, n - 1);
    }
  }

  lemma NoErrorsIsErrorFree(db: Db, remote: RemoteId, list: seq<RemoteUnit>)
    ensures Errors(list, Attempts(db, remote, list), |list|) == [] <==> ErrorFree(db, remote, list)
  {
    NoErrorsIff(list, Attempts(db, remote, list), |list|);
  }

  /** The reported errors are exactly those of the attempts, each with its unit. */
  lemma {:induction false} ErrorsExactly(list: seq<RemoteUnit>, attempts: seq<Result<bool, UnitError>>, n: nat,
        id: UnitId, e: UnitError)
    requires n <= |list| == |attempts|
    ensures (id, e) in Errors(list, attempts, n) <==>
        e != NotMirrored && exists i | 0 <= i < n :: attempts[i] == Failure(e) && list[i].id == id
  {
    if n > 0 {
      ErrorsExactly(list, attempts, n - 1, id, e);
    }
  }

  /** A later failure never comes before an earlier one. */
  lemma {:induction false} ErrorsAreInOrder(list: seq<RemoteUnit>, attempts: seq<Result<bool, UnitError>>, m: nat,
        n: nat)
    requires m <= n <= |list| == |attempts|
    ensures Errors(list, attempts, m) <= Errors(list, attempts, n)
  {
    if m < n {
      ErrorsAreInOrder(list, attempts, m, n - 1);
    }
  }

  // ---------- What a pass publishes ----------

  predicate Distinct(ids: seq<UnitId>) {
    forall i, j | 0 <= i < j < |ids| :: ids[i] != ids[j]
  }

  lemma UpsertPublishes(db: Db, remote: RemoteId, id: UnitId, input: Input)
    ensures var (db', r) := UpsertIn(db, remote, id, input);
            |db'.published| == |db.published| + if r == Success(true) then 1 else 0
  {
  }

  lemma NextUpsertPublishes(db: Db, remote: RemoteId, list: seq<RemoteUnit>, n: nat)
    requires n < |list|
    ensures |Upserted(db, remote, list[..n + 1]).published| ==
        |Upserted(db, remote, list[..n]).published| + if Attempts(db, remote, list)[n] == Success(true) then 1 else 0
  {
    UpsertedAppend(db, remote, list, n);
    assert Attempts(db, remote, list)[n] == Attempt(db, remote, list, n);
    UpsertPublishes(Upserted(db, remote, list[..n]), remote, list[n].id, list[n].ToInput());
  }

  lemma {:induction false} UpsertsPublish(db: Db, remote: RemoteId, list: seq<RemoteUnit>,
        attempts: seq<Result<bool, UnitError>>, n: nat)
    requires n <= |list| && attempts == Attempts(db, remote, list)
    ensures |Upserted(db, remote, list[..n]).published| == |db.published| + CountChanged(attempts, n)
  {
    if n == 0 {
      assert UpsertOps(remote, list[..0]) == [];
    } else {
      UpsertsPublish(db, remote, list, attempts, n - 1);
      NextUpsertPublishes(db, remote, list, n - 1);
    }
  }

  lemma {:induction false} UnlistedDistinct(list: seq<RemoteUnit>, ids: seq<UnitId>)
    requires Distinct(ids)
    ensures Distinct(Unlisted(list, ids))
  {
    if ids != [] {
      var init, last := ids[..|ids| - 1], ids[|ids| - 1];
      UnlistedDistinct(list, init);
      assert last !in init;
      assert forall i | 0 <= i < |Unlisted(list, init)| :: Unlisted(list, init)[i] in Unlisted(list, init);
    }
  }

  lemma {:induction false} DeletesPublish(db: Db, remote: RemoteId, ids: seq<UnitId>)
    requires Distinct(ids)
    requires forall i | 0 <= i < |ids| :: MirrorOf(db.units, remote, ids[i]).Some?
    ensures |Run(db, DeleteOps(remote, ids)).published| == |db.published| + |ids|
  {
    if ids == [] {
      assert DeleteOps(remote, ids) == [];
    } else {
      var init, last := ids[..|ids| - 1], ids[|ids| - 1];
      assert ids == init + [last];
      DeletesPublish(db, remote, init);
      DeletedAppend(db, remote, init, last);
      DeletedUnit(db, remote, init, last);
      assert last !in init;
    }
  }

  /** A pass publishes exactly as many events as it reports changes and deletions. */
  lemma PassPublishes(db: Db, remote: RemoteId, list: seq<RemoteUnit>, mirrored: seq<UnitId>)
    requires PassFinds(db, remote, list, mirrored) && Distinct(mirrored)
    ensures |Pass(db, remote, list, mirrored).published| ==
        |db.published| + CountChanged(Attempts(db, remote, list), |list|) + |Unlisted(list, mirrored)|
  {
    var gone := Unlisted(list, mirrored);
    assert list[..|list|] == list;
    UpsertsPublish(db, remote, list, Attempts(db, remote, list), |list|);
    UnlistedDistinct(list, mirrored);
    forall i | 0 <= i < |gone| ensures MirrorOf(Upserted(db, remote, list).units, remote, gone[i]).Some? {
      assert gone[i] in gone;
    }
    DeletesPublish(Upserted(db, remote, list), remote, gone);
  }

  // ---------- Events ----------

  /** What a pushed change asks of the store, if anything. */
  function EventOps(remote: RemoteId, ev: RemoteEvent): seq<Op> {
    match ev
    case Upsert(Some(u)) => [Op.UpsertSynced(remote, u.id, u.ToInput())]
    case Gone(id) => [Op.DeleteSynced(remote, id)]
    case _ => []
  }

  /** What applying a pushed change does: a created or updated unit is taken over
      unless that fails or the unit is someone else's, a deleted one is no longer
      mirrored, and nothing else changes. */
  lemma EventEffect(db: Db, remote: RemoteId, ev: RemoteEvent)
    requires Valid(db)
    ensures Takes(db, Run(db, EventOps(remote, ev)), remote, ev)
  {
    match ev
    case Upsert(Some(u)) =>
      RunOne(db, Op.UpsertSynced(remote, u.id, u.ToInput()));
      UpsertEffect(db, remote, u.id, u.ToInput());
    case Gone(id) => RunOne(db, Op.DeleteSynced(remote, id));
    case _ =>
  }

  ghost predicate Takes(db: Db, db': Db, remote: RemoteId, ev: RemoteEvent) {
    match ev
    case Upsert(Some(u)) => Mirrors(db, db', remote, u)
    case Gone(id) => Unmirrors(db, db', remote, id)
    case _ => db' == db
  }

  /** The unit is gone exactly if it was mirrored, and then its event is published. */
  ghost predicate Unmirrors(db: Db, db': Db, remote: RemoteId, id: UnitId) {
    && MirrorOf(db'.units, remote, id) == None && OnlyChanges(db.units, db'.units, id)
    && (id in db'.units <==> Foreign(db.units, remote, id))
    && (MirrorOf(db.units, remote, id).Some? ==> db'.published == db.published + [Deleted(id)])
    && (MirrorOf(db.units, remote, id).None? ==> db' == db)
  }

  /** The unit has the served fields unless it is someone else's, the fields are
      bad, another unit has the name or the remote is gone. */
  ghost predicate Mirrors(db: Db, db': Db, remote: RemoteId, u: RemoteUnit) {
    var f := Applied(u.ToInput());
    if Foreign(db.units, remote, u.id) || f.Failure? || NameHeld(db.units, u.id, f.value.name)
        || (u.id !in db.units && remote !in db.remotes)
    then db' == db
    else MirrorOf(db'.units, remote, u.id) == Some(f.value) && OnlyChanges(db.units, db'.units, u.id)
  }

  function StreamOps(remote: RemoteId, events: seq<RemoteEvent>): seq<Op> {
    if events == [] then []
    else StreamOps(remote, events[..|events| - 1]) + EventOps(remote, events[|events| - 1])
  }

  lemma StreamAppend(db: Db, remote: RemoteId, events: seq<RemoteEvent>, ev: RemoteEvent)
    ensures Run(db, StreamOps(remote, events + [ev])) == Run(Run(db, StreamOps(remote, events)), EventOps(remote, ev))
  {
    assert (events + [ev])[..|events|] == events;
    RunConcat(db, StreamOps(remote, events), EventOps(remote, ev));
  }

  lemma NextIsListed(list: seq<RemoteUnit>, i: nat)
    requires i < |list|
    ensures forall id :: Listed(list[..i + 1], id) <==> Listed(list[..i], id) || id == list[i].id
  {
    assert list[..i + 1] == list[..i] + [list[i]];
    forall id ensures Listed(list[..i + 1], id) <==> Listed(list[..i], id) || id == list[i].id {
      ListedAppend(list[..i], list[i], id);
    }
  }

  datatype PassReport =
    | ListingFailed
    | Finished(mirrored: seq<UnitId>, errors: seq<(UnitId, UnitError)>, changed: nat, deleted: nat)

  class Worker {
    const remote: RemoteId
    const units: Service
    var trigger: bool

    constructor (remote: RemoteId, units: Service)
      ensures this.remote == remote && this.units == units && !trigger
    {
      this.remote := remote;
      this.units := units;
      trigger := false;
    }

    /** Fills the one slot; a request finding it full is merged with the one there. */
    method RequestSync() returns (queued: bool)
      modifies this
      ensures trigger && queued == !old(trigger)
    {
      queued := !trigger;
      trigger := true;
    }

    /** syncOnce on the listing the remote answered, None if that failed. */
    method SyncOnce(listing: Option<seq<RemoteUnit>>) returns (report: PassReport)
      modifies units
      ensures listing.None? ==> report == ListingFailed && units.State() == old(units.State())
      ensures listing.Some? ==>
                var list := listing.value;
                && report.Finished?
                && PassFinds(old(units.State()), remote, list, report.mirrored)
                && units.State() == Pass(old(units.State()), remote, list, report.mirrored)
                && report.errors == Errors(list, Attempts(old(units.State()), remote, list), |list|)
                && (report.errors == [] <==> ErrorFree(old(units.State()), remote, list))
                && report.changed == CountChanged(Attempts(old(units.State()), remote, list), |list|)
                && report.deleted == |Unlisted(list, report.mirrored)|
                && |units.published| == |old(units.published)| + report.changed + report.deleted
    {
      if listing.None? {
        return ListingFailed;
      }
      var list := listing.value;
      var listed, errors, changed := UpsertListed(list);
      NoErrorsIsErrorFree(old(units.State()), remote, list);
      var mirrored := units.SyncedIds(remote);
      PassPublishes(old(units.State()), remote, list, mirrored);
      var deleted := DeleteUnlisted(list, listed, mirrored);
      report := Finished(mirrored, errors, changed, deleted);
    }

    /** The pass's first loop: one failing unit does not stop the others. */
    method UpsertListed(list: seq<RemoteUnit>)
          returns (listed: set<UnitId>, errors: seq<(UnitId, UnitError)>, changed: nat)
      modifies units
      ensures units.State() == Upserted(old(units.State()), remote, list)
      ensures forall id :: id in listed <==> Listed(list, id)
      ensures errors == Errors(list, Attempts(old(units.State()), remote, list), |list|)
      ensures changed == CountChanged(Attempts(old(units.State()), remote, list), |list|)
    {
      ghost var db := units.State();
      ghost var attempts := Attempts(db, remote, list);
      listed, errors, changed := {}, [], 0;
      assert UpsertOps(remote, list[..0]) == [];
      for i := 0 to |list|
        invariant units.State() == Upserted(db, remote, list[..i])
        invariant forall id :: id in listed <==> Listed(list[..i], id)
        invariant errors == Errors(list, attempts, i)
        invariant changed == CountChanged(attempts, i)
      {
        var u := list[i];
        NextIsListed(list, i);
        listed := listed + {u.id};
        var r := UpsertListedUnit(list, i, db);
        assert r == attempts[i];
        errors, changed := Tally(u.id, r, errors, changed);
      }
      assert list[..|list|] == list;
    }

    method Tally(id: UnitId, r: Result<bool, UnitError>, errors: seq<(UnitId, UnitError)>, changed: nat)
      returns (errors': seq<(UnitId, UnitError)>, changed': nat)
      ensures errors' == errors + if IsError(r) then [(id, r.error)] else []
      ensures changed' == changed + if r == Success(true) then 1 else 0
    {
      errors', changed' := errors, changed;
      if r.Failure? {
        if r.error != NotMirrored {
          errors' := errors + [(id, r.error)];
        }
      } else if r.value {
        changed' := changed + 1;
      }
    }

    /** The upsert of `list[i]`, in a pass that began on store `db`. */
    method UpsertListedUnit(list: seq<RemoteUnit>, i: nat, ghost db: Db) returns (r: Result<bool, UnitError>)
      requires i < |list| && units.State() == Upserted(db, remote, list[..i])
      modifies units
      ensures units.State() == Upserted(db, remote, list[..i + 1]) && r == Attempt(db, remote, list, i)
    {
      UpsertedAppend(db, remote, list, i);
      r := units.UpsertSynced(remote, list[i].id, list[i].ToInput());
    }

    method DeleteUnlisted(list: seq<RemoteUnit>, listed: set<UnitId>, mirrored: seq<UnitId>) returns (deleted: nat)
      requires forall id :: id in listed <==> Listed(list, id)
      modifies units
      ensures units.State() == Run(old(units.State()), DeleteOps(remote, Unlisted(list, mirrored)))
      ensures deleted == |Unlisted(list, mirrored)|
    {
      ghost var up := units.State();
      deleted := 0;
      assert DeleteOps(remote, Unlisted(list, mirrored[..0])) == [];
      for i := 0 to |mirrored|
        invariant units.State() == Run(up, DeleteOps(remote, Unlisted(list, mirrored[..i])))
        invariant deleted == |Unlisted(list, mirrored[..i])|
      {
        var id := mirrored[i];
        assert mirrored[..i + 1][..i] == mirrored[..i];
        if id in listed {
          assert Unlisted(list, mirrored[..i + 1]) == Unlisted(list, mirrored[..i]);
          continue;
        }
        assert Unlisted(list, mirrored[..i + 1]) == Unlisted(list, mirrored[..i]) + [id];
        DeletedAppend(up, remote, Unlisted(list, mirrored[..i]), id);
        var _ := units.DeleteSynced(remote, id);
        deleted := deleted + 1;
      }
      assert mirrored[..|mirrored|] == mirrored;
    }

    /** One connection: a full pass is requested, then the events are applied in
        the order they were sent, until the connection fails. */
    method Follow(events: seq<RemoteEvent>) returns (queued: bool)
      modifies this, units
      ensures trigger && queued == !old(trigger)
      ensures units.State() == Run(old(units.State()), StreamOps(remote, events))
    {
      ghost var db := units.State();
      queued := RequestSync();
      for i := 0 to |events|
        invariant trigger && units.State() == Run(db, StreamOps(remote, events[..i]))
      {
        assert events[..i + 1] == events[..i] + [events[i]];
        StreamAppend(db, remote, events[..i], events[i]);
        var _ := ApplyEvent(events[i]);
      }
      assert events[..|events|] == events;
    }

    /** apply: mirrors one change the remote pushed; errors are only logged. */
    method ApplyEvent(ev: RemoteEvent) returns (error: Option<UnitError>)
      modifies units
      ensures units.State() == Run(old(units.State()), EventOps(remote, ev))
      ensures Valid(old(units.State())) ==> Takes(old(units.State()), units.State(), remote, ev)
      ensures error.Some? <==>
          ev.Upsert? && ev.unit.Some?
          && IsError(UpsertIn(old(units.State()), remote, ev.unit.value.id, ev.unit.value.ToInput()).1)
    {
      error := None;
      if Valid(units.State()) {
        EventEffect(units.State(), remote, ev);
      }
      match ev
      case Upsert(None) => return;
      case Upsert(Some(u)) =>
        RunOne(units.State(), Op.UpsertSynced(remote, u.id, u.ToInput()));
        var r := units.UpsertSynced(remote, u.id, u.ToInput());
        if r.Failure? && r.error != NotMirrored {
          error := Some(r.error);
        }
      case Gone(id) =>
        RunOne(units.State(), Op.DeleteSynced(remote, id));
        var _ := units.DeleteSynced(remote, id);
      case Other => return;
    }
  }

  lemma RunOne(db: Db, op: Op)
    ensures Run(db, [op]) == Step(db, op)
  {
    assert [op][1..] == [];
    assert Run(Step(db, op), []) == Step(db, op);
  }
}
