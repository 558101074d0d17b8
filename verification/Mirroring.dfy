/** Mirroring a remote by full passes and an event stream at the same time, as a
    state machine over every interleaving of the remote's operations, the other
    operations on this instance, connects and disconnects, events and passes.

    The remote's version is the number of events it has published. A listing is
    taken at the version the remote has then; its units are upserted and those it
    lacks are deleted, one by one, while both instances go on changing. The worker's
    mutex keeps events out until the pass is over. A stream subscribed at version k delivers the events
    from k on, in order and without a gap, until it is cut off at any point. */
module Mirroring {
  import opened Wrappers
  import opened UnitFields
  import opened Store
  import opened StoreLaws
  import opened EventLaws
  import opened Ownership
  import opened Passes

  /** `listed` and `listingFailed` record history only: whether a listing no older
      than the subscription was got, and whether one failed during it. */
  datatype Stream =
    | Offline
    | Online(subscribed: nat, applied: nat, requested: bool, listed: bool, listingFailed: bool)

  datatype Progress =
    | Idle
    | Starting  // a pass was asked for and has not listed yet
    // `rest` is still to be deleted
    | Passing(snapshot: nat, list: seq<RemoteUnit>, done: nat, rest: Option<seq<UnitId>>)

  /** A completed pass in the current connection: the version it listed, and how
      far the events had been applied. */
  datatype Sync = Sync(snapshot: nat, since: nat)

  /** `want` and `missed` record history only: the fields this instance last
      tried to give each id, and the ids whose last attempt was refused. */
  datatype State = State(
    source: Db, local: Db, remote: RemoteId,
    stream: Stream, pass: Progress, trigger: bool,
    synced: Option<Sync>, want: Listing, missed: set<UnitId>)

  datatype Action =
    | RemoteOp(op: Op)
    | LocalOp(op: Op)
    | Connect
    | Request
    | Deliver
    | Disconnect
    | Tick
    | AskForPass
    | TakeTrigger
    | List(order: seq<UnitId>)
    | ListFails
    | UpsertNext
    | FindMirrored(mirrored: seq<UnitId>)
    | DeleteNext
    | FinishPass

  /** The remote's listing at version `v`. */
  function Version(published: seq<Event>, v: nat): Listing
    requires v <= |published|
  {
    Replay(map[], published[..v])
  }

  /** The remote's units in some order, each once. */
  predicate ListsAll(m: Listing, order: seq<UnitId>) {
    && (forall i | 0 <= i < |order| :: order[i] in m)
    && (forall i, j | 0 <= i < j < |order| :: order[i] != order[j])
    && (forall id | id in m :: id in order)
  }

  function Served(m: Listing, order: seq<UnitId>): seq<RemoteUnit>
    requires forall i | 0 <= i < |order| :: order[i] in m
  {
    seq(|order|, i requires 0 <= i < |order| => Response(order[i], m[order[i]]))
  }

  /** An operation on this instance that is not this worker's. The remote stays
      configured while its worker runs. */
  predicate Foreigner(op: Op, remote: RemoteId) {
    match op
    case UpsertSynced(r, _, _) => r != remote
    case DeleteSynced(r, _) => r != remote
    case RemoveRemote(r) => r != remote
    case _ => true
  }

  ghost predicate Enabled(s: State, a: Action) {
    match a
    case RemoteOp(_) => true
    case LocalOp(op) => Foreigner(op, s.remote)
    case Connect => s.stream.Offline?
    case Request => s.stream.Online? && !s.stream.requested
    case Deliver => s.stream.Online? && s.stream.requested && s.stream.applied < |s.source.published|
        && !s.pass.Passing?
    case Disconnect => s.stream.Online?
    case Tick => s.pass.Idle?
    case AskForPass => true
    case TakeTrigger => s.pass.Idle? && s.trigger
    case List(order) => s.pass.Starting? && ListsAll(View(s.source.units), order)
    case ListFails => s.pass.Starting?
    case UpsertNext => s.pass.Passing? && s.pass.done < |s.pass.list| && s.pass.rest.None?
    case FindMirrored(mirrored) => s.pass.Passing? && s.pass.done == |s.pass.list| && s.pass.rest.None?
        && ListsMirrored(s.local, s.remote, mirrored)
    case DeleteNext => s.pass.Passing? && s.pass.rest.Some? && s.pass.rest.value != []
    case FinishPass => s.pass.Passing? && s.pass.rest == Some([])
  }

  /** One attempt to mirror a served unit. */
  function Mirrored(s: State, u: RemoteUnit): State {
    var (db, r) := UpsertIn(s.local, s.remote, u.id, u.ToInput());
    s.(local := db,
       want := if Applied(u.ToInput()).Success? then s.want[u.id := Applied(u.ToInput()).value] else s.want,
       missed := if r.Success? then s.missed - {u.id} else s.missed + {u.id})
  }

  function Unmirrored(s: State, id: UnitId): State {
    s.(local := DeleteSyncedIn(s.local, s.remote, id).0, want := s.want - {id}, missed := s.missed - {id})
  }

  function Delivered(s: State, ev: Event): State {
    match ev
    case Created(id, unit) => Mirrored(s, Response(id, unit.fields))
    case Updated(id, unit) => Mirrored(s, Response(id, unit.fields))
    case Deleted(id) => Unmirrored(s, id)
  }

  /** A completed pass has tried what it listed, and nothing else is left. */
  function Finished(s: State): State
    requires s.pass.Passing?
  {
    s.(want := (map id | id in s.want && Listed(s.pass.list, id) :: s.want[id]),
       missed := (set id | id in s.missed && Listed(s.pass.list, id)),
       pass := Idle,
       synced := if s.stream.Online? && s.stream.subscribed <= s.pass.snapshot
                 then Some(Sync(s.pass.snapshot, s.stream.applied)) else None)
  }

  ghost function Next(s: State, a: Action): State {
    if !Enabled(s, a) then s
    else
      match a
      case RemoteOp(op) => s.(source := Step(s.source, op))
      case LocalOp(op) => s.(local := Step(s.local, op))
      case Connect =>
        var now := |s.source.published|;
        s.(stream := Online(now, now, false, s.pass.Passing? && s.pass.snapshot >= now, false), synced := None)
      case Request => s.(stream := s.stream.(requested := true), trigger := true)
      case Deliver =>
        var ev := s.source.published[s.stream.applied];
        Delivered(s, ev).(stream := s.stream.(applied := s.stream.applied + 1))
      case Disconnect => s.(stream := Offline, synced := None)
      case Tick => s.(pass := Starting)
      case AskForPass => s.(trigger := true)
      case TakeTrigger => s.(pass := Starting, trigger := false)
      case List(order) => s.(pass := Passing(|s.source.published|, Served(View(s.source.units), order), 0, None),
                             stream := if s.stream.Online? then s.stream.(listed := true) else s.stream)
      case ListFails =>
        s.(pass := Idle,
           stream := if s.stream.Online? then s.stream.(listingFailed := true) else s.stream)
      case UpsertNext =>
        Mirrored(s, s.pass.list[s.pass.done]).(pass := s.pass.(done := s.pass.done + 1))
      case FindMirrored(mirrored) => s.(pass := s.pass.(rest := Some(Unlisted(s.pass.list, mirrored))))
      case DeleteNext => Unmirrored(s, s.pass.rest.value[0]).(pass := s.pass.(rest := Some(s.pass.rest.value[1..])))
      case FinishPass => Finished(s)
  }

  ghost function Runs(s: State, actions: seq<Action>): State
    decreases |actions|
  {
    if actions == [] then s else Runs(Next(s, actions[0]), actions[1..])
  }

  lemma {:induction false} RunsOneMore(s: State, actions: seq<Action>, a: Action)
    ensures Runs(s, actions + [a]) == Next(Runs(s, actions), a)
    decreases |actions|
  {
    if actions == [] {
      assert [] + [a] == [a] && [a][1..] == [];
      assert Runs(Next(s, a), []) == Next(s, a);
    } else {
      assert (actions + [a])[0] == actions[0] && (actions + [a])[1..] == actions[1..] + [a];
      RunsOneMore(Next(s, actions[0]), actions[1..], a);
    }
  }

  // ---------- The invariant ----------

  ghost predicate NormalEvents(published: seq<Event>) {
    forall i | 0 <= i < |published| :: published[i].Deleted? || Normal(published[i].unit.fields)
  }

  ghost predicate SourceOk(source: Db) {
    Valid(source) && View(source.units) == Replay(map[], source.published) && NormalEvents(source.published)
  }

  /** Here is what was last tried, exactly unless that attempt was refused. */
  ghost predicate Accounts(local: Db, remote: RemoteId, want: Listing, missed: set<UnitId>) {
    forall x :: MirrorOf(local.units, remote, x) == Lookup(want, x) <==> x !in missed
  }

  ghost predicate StreamOk(s: State) {
    s.stream.Online? ==> s.stream.subscribed <= s.stream.applied <= |s.source.published|
  }

  /** A pass works through a listing of its snapshot's version. */
  ghost predicate PassOk(s: State) {
    s.pass.Passing? ==>
      && s.pass.snapshot <= |s.source.published| && s.pass.done <= |s.pass.list|
      && (s.stream.Online? && s.stream.subscribed <= s.pass.snapshot ==> s.stream.applied <= s.pass.snapshot)
      && var m := Version(s.source.published, s.pass.snapshot);
      && IsListing(s.pass.list, m)
      && WantsListed(s.want, s.pass.list[..s.pass.done], m)
      && (s.pass.rest.Some? ==>
          s.pass.done == |s.pass.list| && RestOk(s.local, s.remote, s.pass.list, s.pass.rest.value))
  }

  /** What is left to delete is unlisted, and nothing else mirrored is. */
  ghost predicate RestOk(local: Db, remote: RemoteId, list: seq<RemoteUnit>, rest: seq<UnitId>) {
    && (forall x | x in rest :: !Listed(list, x))
    && (forall x | MirrorOf(local.units, remote, x).Some? && !Listed(list, x) :: x in rest)
  }

  predicate IsServed(u: RemoteUnit, m: Listing) {
    u.id in m && Applied(u.ToInput()) == Success(m[u.id])
  }

  ghost predicate IsListing(list: seq<RemoteUnit>, m: Listing) {
    && (forall id :: Listed(list, id) <==> id in m)
    && (forall i | 0 <= i < |list| :: IsServed(list[i], m))
  }

  /** The fields last tried for these units are the listed ones. */
  predicate WantsListed(want: Listing, tried: seq<RemoteUnit>, m: Listing) {
    forall u | u in tried :: Lookup(want, u.id) == Lookup(m, u.id)
  }

  /** An event between versions `from` and `to` concerns the unit. */
  predicate Touched(published: seq<Event>, from: nat, until: nat, id: UnitId)
    requires until <= |published|
  {
    exists i | from <= i < until :: published[i].id == id
  }

  /** The fields the worker should have mirrored: those after the last applied
      event if one concerned the unit since the pass, else those the pass listed. */
  function Expected(published: seq<Event>, sync: Sync, applied: nat, id: UnitId): Option<Input>
    requires applied <= |published| && sync.snapshot <= |published|
  {
    if Touched(published, sync.since, applied, id) then Lookup(Version(published, applied), id)
    else Lookup(Version(published, sync.snapshot), id)
  }

  ghost predicate SyncOk(s: State) {
    s.synced.Some? ==>
      && s.stream.Online?
      && s.stream.subscribed <= s.synced.value.since <= s.synced.value.snapshot <= |s.source.published|
      && s.synced.value.since <= s.stream.applied <= |s.source.published|
      && (s.pass.Passing? ==> s.stream.subscribed <= s.pass.snapshot)
      && WantsOk(s.source.published, s.synced.value, s.stream.applied, s.pass, s.want)
  }

  ghost predicate WantsOk(published: seq<Event>, sync: Sync, applied: nat, pass: Progress, want: Listing)
    requires applied <= |published| && sync.snapshot <= |published|
  {
    forall x :: WantOk(published, sync, applied, pass, want, x)
  }

  /** What was last tried for the unit is what is expected, or what the pass under
      way listed. */
  predicate WantOk(published: seq<Event>, sync: Sync, applied: nat, pass: Progress, want: Listing, x: UnitId)
    requires applied <= |published| && sync.snapshot <= |published|
  {
    || Lookup(want, x) == Expected(published, sync, applied, x)
    || (pass.Passing? && pass.snapshot <= |published|
        && Lookup(want, x) == Lookup(Version(published, pass.snapshot), x))
  }

  /** A listing no older than the subscription is being worked through, or was. */
  predicate ListingOk(s: State) {
    s.stream.Online? ==>
      (s.stream.listed <==> s.synced.Some? || (s.pass.Passing? && s.stream.subscribed <= s.pass.snapshot))
  }

  /** Without such a listing, and none failed, one is about to be asked for. */
  predicate ResyncPending(s: State) {
    s.stream.Online? && s.stream.requested && !s.stream.listingFailed && !s.stream.listed ==>
      s.trigger || s.pass.Starting?
  }

  ghost predicate Inv(s: State) {
    && SourceOk(s.source)
    && Valid(s.local) && s.remote in s.local.remotes
    && Accounts(s.local, s.remote, s.want, s.missed)
    && StreamOk(s) && PassOk(s) && SyncOk(s) && ListingOk(s) && ResyncPending(s)
  }

  // ---------- The remote's versions ----------

  lemma VersionStable(published: seq<Event>, published': seq<Event>, v: nat)
    requires published <= published' && v <= |published|
    ensures Version(published', v) == Version(published, v)
  {
    assert published'[..v] == published[..v];
  }

  lemma VersionNext(published: seq<Event>, v: nat)
    requires v < |published|
    ensures Version(published, v + 1) == ApplyEvent(Version(published, v), published[v])
  {
    ReplayAppend(map[], published[..v], published[v]);
    assert published[..v + 1] == published[..v] + [published[v]];
  }

  lemma VersionNow(source: Db)
    requires SourceOk(source)
    ensures Version(source.published, |source.published|) == View(source.units)
  {
    assert source.published[..|source.published|] == source.published;
  }

  /** Without an event about it a unit is the same in both versions. */
  lemma {:induction false} UntouchedIsSame(published: seq<Event>, from: nat, until: nat, id: UnitId)
    requires from <= until <= |published| && !Touched(published, from, until, id)
    ensures Lookup(Version(published, from), id) == Lookup(Version(published, until), id)
    decreases until
  {
    if from < until {
      UntouchedIsSame(published, from, until - 1, id);
      VersionNext(published, until - 1);
    }
  }

  lemma ToldIsOk(source: Db, source': Db, ev: Event)
    requires SourceOk(source) && Valid(source') && TellsBy(source, source', ev)
    ensures SourceOk(source')
  {
    ReplayAppend(map[], source.published, ev);
    if !ev.Deleted? {
      assert ev.id in View(source'.units) && View(source'.units)[ev.id] == ev.unit.fields;
    }
  }

  lemma SourceStep(source: Db, op: Op)
    requires SourceOk(source)
    ensures SourceOk(Step(source, op)) && source.published <= Step(source, op).published
  {
    var source' := Step(source, op);
    StepKeepsValid(source, op);
    StepTells(source, op);
    if ev :| TellsBy(source, source', ev) {
      ToldIsOk(source, source', ev);
    }
  }

  // ---------- Attempts keep the account ----------

  lemma MirroredAccounts(s: State, u: RemoteUnit)
    requires Valid(s.local) && s.remote in s.local.remotes && Accounts(s.local, s.remote, s.want, s.missed)
    requires Applied(u.ToInput()).Success?
    ensures var s' := Mirrored(s, u);
            Valid(s'.local) && s'.remote in s'.local.remotes && Accounts(s'.local, s'.remote, s'.want, s'.missed)
  {
    UpsertEffect(s.local, s.remote, u.id, u.ToInput());
    UpsertKeepsValid(s.local, s.remote, u.id, u.ToInput());
    var s' := Mirrored(s, u);
    forall x ensures MirrorOf(s'.local.units, s.remote, x) == Lookup(s'.want, x) <==> x !in s'.missed {
      if x != u.id {
        assert MirrorOf(s'.local.units, s.remote, x) == MirrorOf(s.local.units, s.remote, x);
      }
    }
  }

  lemma UnmirroredAccounts(s: State, id: UnitId)
    requires Valid(s.local) && s.remote in s.local.remotes && Accounts(s.local, s.remote, s.want, s.missed)
    ensures var s' := Unmirrored(s, id);
            Valid(s'.local) && s'.remote in s'.local.remotes && Accounts(s'.local, s'.remote, s'.want, s'.missed)
  {
    DeleteSyncedEffect(s.local, s.remote, id);
    var s' := Unmirrored(s, id);
    forall x ensures MirrorOf(s'.local.units, s.remote, x) == Lookup(s'.want, x) <==> x !in s'.missed {
      if x != id {
        assert MirrorOf(s'.local.units, s.remote, x) == MirrorOf(s.local.units, s.remote, x);
      }
    }
  }

  /** Everyone else's operations leave this remote's units alone. */
  lemma ForeignersLeaveMirror(local: Db, remote: RemoteId, op: Op, x: UnitId)
    requires Foreigner(op, remote)
    ensures MirrorOf(Step(local, op).units, remote, x) == MirrorOf(local.units, remote, x)
  {
    if x in local.units && local.units[x].owner == Some(remote) {
      StepLeavesOthers(local, op, x);
    }
  }

  lemma LocalOpAccounts(s: State, op: Op)
    requires Valid(s.local) && s.remote in s.local.remotes && Accounts(s.local, s.remote, s.want, s.missed)
        && Foreigner(op, s.remote)
    ensures Valid(Step(s.local, op)) && s.remote in Step(s.local, op).remotes
        && Accounts(Step(s.local, op), s.remote, s.want, s.missed)
  {
    StepKeepsValid(s.local, op);
    forall x {
      ForeignersLeaveMirror(s.local, s.remote, op, x);
    }
  }

  lemma FinishedAccounts(s: State)
    requires Accounts(s.local, s.remote, s.want, s.missed)
    requires s.pass.Passing? && RestOk(s.local, s.remote, s.pass.list, [])
    ensures Accounts(s.local, s.remote, Finished(s).want, Finished(s).missed)
  {
  }

  // ---------- Every action keeps the invariant ----------

  lemma SamePassWants(published: seq<Event>, sync: Sync, applied: nat, pass: Progress, pass': Progress, want: Listing)
    requires applied <= |published| && sync.snapshot <= |published| && WantsOk(published, sync, applied, pass, want)
    requires pass.Passing? ==> pass'.Passing? && pass'.snapshot == pass.snapshot
    ensures WantsOk(published, sync, applied, pass', want)
  {
    forall x ensures WantOk(published, sync, applied, pass', want, x) {
      assert WantOk(published, sync, applied, pass, want, x);
    }
  }

  /** The pass came to unit `id`. */
  lemma TriedWants(published: seq<Event>, sync: Sync, applied: nat, pass: Progress, pass': Progress, want: Listing,
        want': Listing, id: UnitId)
    requires applied <= |published| && sync.snapshot <= |published| && WantsOk(published, sync, applied, pass, want)
    requires pass.Passing? && pass'.Passing? && pass'.snapshot == pass.snapshot <= |published|
    requires forall x | x != id :: Lookup(want', x) == Lookup(want, x)
    requires Lookup(want', id) == Lookup(Version(published, pass.snapshot), id)
    ensures WantsOk(published, sync, applied, pass', want')
  {
    forall x ensures WantOk(published, sync, applied, pass', want', x) {
      assert WantOk(published, sync, applied, pass, want, x);
    }
  }

  lemma PastWants(published: seq<Event>, published': seq<Event>, sync: Sync, applied: nat, pass: Progress,
        want: Listing)
    requires applied <= |published| && sync.snapshot <= |published| && published <= published'
    requires WantsOk(published, sync, applied, pass, want) && (pass.Passing? ==> pass.snapshot <= |published|)
    ensures WantsOk(published', sync, applied, pass, want)
  {
    VersionStable(published, published', sync.snapshot);
    VersionStable(published, published', applied);
    if pass.Passing? {
      VersionStable(published, published', pass.snapshot);
    }
    forall x ensures WantOk(published', sync, applied, pass, want, x) {
      assert WantOk(published, sync, applied, pass, want, x);
      assert Touched(published', sync.since, applied, x) == Touched(published, sync.since, applied, x);
    }
  }

  /** The facts about the remote's past that only grow. */
  lemma PastIsStable(s: State, source': Db)
    requires PassOk(s) && SyncOk(s) && s.source.published <= source'.published
    requires StreamOk(s)
    ensures PassOk(s.(source := source')) && SyncOk(s.(source := source'))
  {
    var p, p' := s.source.published, source'.published;
    if s.pass.Passing? {
      VersionStable(p, p', s.pass.snapshot);
    }
    if s.synced.Some? {
      PastWants(p, p', s.synced.value, s.stream.applied, s.pass, s.want);
    }
  }

  lemma RemoteOpKeeps(s: State, op: Op)
    requires Inv(s)
    ensures Inv(Next(s, RemoteOp(op)))
  {
    SourceStep(s.source, op);
    PastIsStable(s, Step(s.source, op));
  }

  lemma LocalOpKeeps(s: State, op: Op)
    requires Inv(s)
    ensures Inv(Next(s, LocalOp(op)))
  {
    if Foreigner(op, s.remote) {
      LocalOpAccounts(s, op);
      forall x {
        ForeignersLeaveMirror(s.local, s.remote, op, x);
      }
    }
  }

  lemma ServedIsServed(m: Listing, order: seq<UnitId>)
    requires ListsAll(m, order) && forall id | id in m :: Normal(m[id])
    ensures forall i | 0 <= i < |order| :: IsServed(Served(m, order)[i], m)
    ensures forall id :: Listed(Served(m, order), id) <==> id in m
  {
    forall i | 0 <= i < |order| ensures IsServed(Served(m, order)[i], m) {
      MirrorReproduces(order[i], m[order[i]]);
    }
    forall id ensures Listed(Served(m, order), id) <==> id in m {
      if id in m {
        var i :| 0 <= i < |order| && order[i] == id;
        assert Served(m, order)[i].id == id;
      }
    }
  }

  lemma PassChangeKeepsWants(s: State, pass: Progress)
    requires SyncOk(s) && (s.pass.Passing? ==> pass.Passing? && pass.snapshot == s.pass.snapshot)
    ensures s.synced.Some? ==> WantsOk(s.source.published, s.synced.value, s.stream.applied, pass, s.want)
  {
    if s.synced.Some? {
      SamePassWants(s.source.published, s.synced.value, s.stream.applied, s.pass, pass, s.want);
    }
  }

  /** Starting a pass, or giving up on one that got no listing. */
  lemma WaitingKeeps(s: State, a: Action)
    requires Inv(s) && (a.Tick? || a.TakeTrigger? || a.ListFails?)
    ensures Inv(Next(s, a))
  {
    if Enabled(s, a) {
      PassChangeKeepsWants(s, Next(s, a).pass);
    }
  }

  lemma ListKeeps(s: State, order: seq<UnitId>)
    requires Inv(s)
    ensures Inv(Next(s, List(order)))
  {
    if Enabled(s, List(order)) {
      VersionNow(s.source);
      ServedIsServed(View(s.source.units), order);
      PassChangeKeepsWants(s, Next(s, List(order)).pass);
    }
  }

  lemma WantsNext(want: Listing, list: seq<RemoteUnit>, done: nat, m: Listing)
    requires done < |list| && IsServed(list[done], m)
    requires WantsListed(want, list[..done], m)
    ensures WantsListed(want[list[done].id := m[list[done].id]], list[..done + 1], m)
  {
    assert list[..done + 1] == list[..done] + [list[done]];
  }

  lemma TriedKeepsWants(s: State, s': State, id: UnitId)
    requires SyncOk(s) && s.pass.Passing? && s.pass.snapshot <= |s.source.published|
    requires s'.source == s.source && s'.stream == s.stream && s'.synced == s.synced
    requires s'.pass.Passing? && s'.pass.snapshot == s.pass.snapshot
    requires forall x | x != id :: Lookup(s'.want, x) == Lookup(s.want, x)
    requires Lookup(s'.want, id) == Lookup(Version(s.source.published, s.pass.snapshot), id)
    ensures SyncOk(s')
  {
    if s.synced.Some? {
      TriedWants(s.source.published, s.synced.value, s.stream.applied, s.pass, s'.pass, s.want, s'.want, id);
    }
  }

  lemma UpsertNextKeeps(s: State)
    requires Inv(s)
    ensures Inv(Next(s, UpsertNext))
  {
    if Enabled(s, UpsertNext) {
      var m, u := Version(s.source.published, s.pass.snapshot), s.pass.list[s.pass.done];
      assert IsServed(u, m);
      MirroredAccounts(s, u);
      WantsNext(s.want, s.pass.list, s.pass.done, m);
      TriedKeepsWants(s, Next(s, UpsertNext), u.id);
    }
  }

  /** What a completed pass tried is the whole listing of its snapshot. */
  lemma ListingWants(want: Listing, list: seq<RemoteUnit>, m: Listing, x: UnitId)
    requires IsListing(list, m) && WantsListed(want, list, m)
    ensures Listed(list, x) <==> x in m
    ensures Listed(list, x) ==> Lookup(want, x) == Lookup(m, x)
  {
    if Listed(list, x) {
      var i :| 0 <= i < |list| && list[i].id == x;
      assert list[i] in list;
    }
  }

  lemma FindMirroredKeeps(s: State, mirrored: seq<UnitId>)
    requires Inv(s)
    ensures Inv(Next(s, FindMirrored(mirrored)))
  {
    if Enabled(s, FindMirrored(mirrored)) {
      PassChangeKeepsWants(s, Next(s, FindMirrored(mirrored)).pass);
    }
  }

  lemma DeleteNextKeeps(s: State)
    requires Inv(s)
    ensures Inv(Next(s, DeleteNext))
  {
    if Enabled(s, DeleteNext) {
      var id, rest := s.pass.rest.value[0], s.pass.rest.value[1..];
      assert s.pass.rest.value == [id] + rest;
      UnmirroredAccounts(s, id);
      DeleteSyncedEffect(s.local, s.remote, id);
      DeletedStaysListed(s.want, s.pass.list, s.pass.done, id, Version(s.source.published, s.pass.snapshot));
      TriedKeepsWants(s, Next(s, DeleteNext), id);
    }
  }

  lemma DeletedStaysListed(want: Listing, list: seq<RemoteUnit>, done: nat, id: UnitId, m: Listing)
    requires done <= |list| && WantsListed(want, list[..done], m) && !Listed(list, id)
    ensures WantsListed(want - {id}, list[..done], m)
  {
    forall u | u in list[..done] ensures u.id != id {
      var i :| 0 <= i < done && list[i] == u;
    }
  }

  lemma FinishedWants(s: State, x: UnitId)
    requires PassOk(s) && s.pass.Passing? && s.pass.done == |s.pass.list|
    ensures Lookup(Finished(s).want, x) == Lookup(Version(s.source.published, s.pass.snapshot), x)
  {
    assert s.pass.list[..s.pass.done] == s.pass.list;
    ListingWants(s.want, s.pass.list, Version(s.source.published, s.pass.snapshot), x);
  }

  lemma FinishedKeepsWants(s: State)
    requires PassOk(s) && StreamOk(s) && s.pass.Passing? && s.pass.done == |s.pass.list|
    ensures SyncOk(Finished(s))
  {
    var s' := Finished(s);
    if s'.synced.Some? {
      forall x ensures WantOk(s.source.published, s'.synced.value, s.stream.applied, s'.pass, s'.want, x) {
        FinishedWants(s, x);
      }
    }
  }

  lemma FinishKeeps(s: State)
    requires Inv(s)
    ensures Inv(Next(s, FinishPass))
  {
    if Enabled(s, FinishPass) {
      FinishedAccounts(s);
      FinishedKeepsWants(s);
    }
  }

  lemma DeliveredAccounts(s: State, ev: Event)
    requires Valid(s.local) && s.remote in s.local.remotes && Accounts(s.local, s.remote, s.want, s.missed)
    requires ev.Deleted? || Normal(ev.unit.fields)
    ensures var s' := Delivered(s, ev);
            && Valid(s'.local) && s'.remote in s'.local.remotes && Accounts(s'.local, s'.remote, s'.want, s'.missed)
            && s'.want == ApplyEvent(s.want, ev)
            && s' == s.(local := s'.local, want := s'.want, missed := s'.missed)
  {
    match ev
    case Deleted(id) => UnmirroredAccounts(s, id);
    case Created(id, unit) =>
      MirrorReproduces(id, unit.fields);
      MirroredAccounts(s, Response(id, unit.fields));
    case Updated(id, unit) =>
      MirrorReproduces(id, unit.fields);
      MirroredAccounts(s, Response(id, unit.fields));
  }

  /** Applying the next event keeps each id at what is expected of it. */
  lemma ExpectedNext(published: seq<Event>, sync: Sync, applied: nat, x: UnitId)
    requires sync.snapshot <= |published| && sync.since <= applied < |published|
    ensures Expected(published, sync, applied + 1, x) ==
              if x == published[applied].id then Lookup(Version(published, applied + 1), x)
              else Expected(published, sync, applied, x)
  {
    VersionNext(published, applied);
    if x == published[applied].id {
      assert Touched(published, sync.since, applied + 1, x);
    } else if Touched(published, sync.since, applied + 1, x) {
      var i :| sync.since <= i < applied + 1 && published[i].id == x;
      assert Touched(published, sync.since, applied, x);
    }
  }

  lemma DeliveredWants(published: seq<Event>, sync: Sync, applied: nat, want: Listing, x: UnitId)
    requires sync.snapshot <= |published| && sync.since <= applied < |published|
    requires Lookup(want, x) == Expected(published, sync, applied, x)
    ensures Lookup(ApplyEvent(want, published[applied]), x) == Expected(published, sync, applied + 1, x)
  {
    ExpectedNext(published, sync, applied, x);
    VersionNext(published, applied);
  }

  lemma DeliveredKeepsWants(published: seq<Event>, sync: Sync, applied: nat, pass: Progress, want: Listing)
    requires sync.snapshot <= |published| && sync.since <= applied < |published| && !pass.Passing?
    requires WantsOk(published, sync, applied, pass, want)
    ensures WantsOk(published, sync, applied + 1, pass, ApplyEvent(want, published[applied]))
  {
    var next, want' := applied + 1, ApplyEvent(want, published[applied]);
    forall x ensures WantOk(published, sync, next, pass, want', x) {
      assert WantOk(published, sync, applied, pass, want, x);
      DeliveredWants(published, sync, applied, want, x);
    }
  }

  lemma DeliverKeeps(s: State)
    requires Inv(s)
    ensures Inv(Next(s, Deliver))
  {
    if Enabled(s, Deliver) {
      DeliveredAccounts(s, s.source.published[s.stream.applied]);
      if s.synced.Some? {
        DeliveredKeepsWants(s.source.published, s.synced.value, s.stream.applied, s.pass, s.want);
      }
    }
  }

  lemma NextKeepsInv(s: State, a: Action)
    requires Inv(s)
    ensures Inv(Next(s, a))
  {
    match a
    case RemoteOp(op) => RemoteOpKeeps(s, op);
    case LocalOp(op) => LocalOpKeeps(s, op);
    case Connect =>
    case Request =>
    case Deliver => DeliverKeeps(s);
    case Disconnect =>
    case Tick => WaitingKeeps(s, a);
    case AskForPass =>
    case TakeTrigger => WaitingKeeps(s, a);
    case List(order) => ListKeeps(s, order);
    case ListFails => WaitingKeeps(s, a);
    case UpsertNext => UpsertNextKeeps(s);
    case FindMirrored(mirrored) => FindMirroredKeeps(s, mirrored);
    case DeleteNext => DeleteNextKeeps(s);
    case FinishPass => FinishKeeps(s);
  }

  /** A worker starting on any valid store, next to a remote that started empty. */
  ghost predicate Init(s: State) {
    && SourceOk(s.source) && Valid(s.local) && s.remote in s.local.remotes
    && s.stream.Offline? && s.pass.Idle? && s.synced.None? && s.missed == {}
    && forall x :: Lookup(s.want, x) == MirrorOf(s.local.units, s.remote, x)
  }

  lemma {:induction false} RunsKeepInv(s: State, actions: seq<Action>)
    requires Inv(s)
    ensures Inv(Runs(s, actions))
    decreases |actions|
  {
    if actions != [] {
      NextKeepsInv(s, actions[0]);
      RunsKeepInv(Next(s, actions[0]), actions[1..]);
    }
  }

  // ---------- What it means ----------

  /** In every reachable state after a completed pass of the current connection,
      each unit not missed has here the fields it had on the remote at some
      version: that of the last applied event, or a later one up to the snapshot
      of that pass or of one under way. */
  lemma MirrorIsBetween(s0: State, actions: seq<Action>, x: UnitId) returns (v: nat)
    requires Init(s0)
    requires var s := Runs(s0, actions); s.synced.Some? && x !in s.missed
    ensures var s := Runs(s0, actions);
            && s.stream.Online?
            && (v == s.stream.applied
                || s.stream.applied <= v <= s.synced.value.snapshot
                || (s.pass.Passing? && s.stream.applied <= v == s.pass.snapshot))
            && v <= |s.source.published|
            && MirrorOf(s.local.units, s.remote, x) == Lookup(Version(s.source.published, v), x)
  {
    RunsKeepInv(s0, actions);
    var s := Runs(s0, actions);
    var sync, applied, p := s.synced.value, s.stream.applied, s.source.published;
    assert WantOk(p, sync, applied, s.pass, s.want, x);
    if Lookup(s.want, x) == Expected(p, sync, applied, x) {
      v := ExpectedVersion(p, sync, applied, x);
    } else {
      v := s.pass.snapshot;
    }
  }

  lemma ExpectedVersion(published: seq<Event>, sync: Sync, applied: nat, x: UnitId) returns (v: nat)
    requires sync.since <= sync.snapshot <= |published| && sync.since <= applied <= |published|
    ensures v == applied || applied <= v <= sync.snapshot
    ensures v <= |published| && Expected(published, sync, applied, x) == Lookup(Version(published, v), x)
  {
    v := applied;
    if !Touched(published, sync.since, applied, x) {
      if applied <= sync.snapshot {
        v := sync.snapshot;
      } else {
        assert !Touched(published, sync.snapshot, applied, x);
        UntouchedIsSame(published, sync.snapshot, applied, x);
      }
    }
  }

  /** With every event applied, the last version is what was tried. */
  lemma DrainedWants(published: seq<Event>, sync: Sync, pass: Progress, want: Listing, x: UnitId)
    requires sync.since <= sync.snapshot <= |published| && (pass.Passing? ==> pass.snapshot >= |published|)
    requires WantOk(published, sync, |published|, pass, want, x)
    ensures Lookup(want, x) == Lookup(Version(published, |published|), x)
  {
    var v := ExpectedVersion(published, sync, |published|, x);
  }

  /** Once the stream is drained a unit disagrees exactly if it is missed. */
  lemma DrainedMirrorMisses(s: State, x: UnitId)
    requires Inv(s) && s.synced.Some? && s.stream.Online? && s.stream.applied == |s.source.published|
    ensures MirrorOf(s.local.units, s.remote, x) == Lookup(View(s.source.units), x) <==> x !in s.missed
  {
    VersionNow(s.source);
    DrainedWants(s.source.published, s.synced.value, s.pass, s.want, x);
  }

  /** An attempt is refused exactly for a unit that is someone else's here or a
      name another unit here has; so those are the missed units of the moment. */
  lemma MissedExactlyIf(s: State, u: RemoteUnit)
    requires Valid(s.local) && s.remote in s.local.remotes && Applied(u.ToInput()).Success?
    ensures u.id in Mirrored(s, u).missed <==>
              Foreign(s.local.units, s.remote, u.id) || NameHeld(s.local.units, u.id, Applied(u.ToInput()).value.name)
    ensures Mirrored(s, u).missed - {u.id} == s.missed - {u.id}
  {
    UpsertEffect(s.local, s.remote, u.id, u.ToInput());
  }

  /** The unit an action tries to mirror, if it is an attempt. */
  function Attempted(s: State, a: Action): Option<RemoteUnit> {
    match a
    case UpsertNext => if s.pass.Passing? && s.pass.done < |s.pass.list| then Some(s.pass.list[s.pass.done]) else None
    case Deliver =>
      if s.stream.Online? && s.stream.applied < |s.source.published| && !s.source.published[s.stream.applied].Deleted?
      then Some(Response(s.source.published[s.stream.applied].id, s.source.published[s.stream.applied].unit.fields))
          else None
    case _ => None
  }

  /** This instance has the unit as someone else's, or another one of that name. */
  ghost predicate Hindered(local: Db, remote: RemoteId, u: RemoteUnit) {
    Foreign(local.units, remote, u.id)
        || (Applied(u.ToInput()).Success? && NameHeld(local.units, u.id, Applied(u.ToInput()).value.name))
  }

  /** The action deletes the unit here, or ends a pass that did not list it. */
  predicate Drops(s: State, a: Action, x: UnitId) {
    match a
    case Deliver => s.stream.Online? && s.stream.applied < |s.source.published|
        && s.source.published[s.stream.applied] == Deleted(x)
    case DeleteNext => s.pass.Passing? && s.pass.rest.Some? && s.pass.rest.value != [] && s.pass.rest.value[0] == x
    case FinishPass => s.pass.Passing? && !Listed(s.pass.list, x)
    case _ => false
  }

  /** Whether the last attempt at unit `x` met a hindrance, given whether the one
      before did; one that was dropped since counts as none. */
  ghost predicate HinderedBy(s: State, a: Action, x: UnitId, before: bool) {
    if !Enabled(s, a) then before
    else
      var u := Attempted(s, a);
      if u.Some? && u.value.id == x then Hindered(s.local, s.remote, u.value)
      else if Drops(s, a, x) then false
      else before
  }

  /** The same after a whole run. */
  ghost predicate LastHindered(s: State, actions: seq<Action>, x: UnitId, before: bool)
    decreases |actions|
  {
    if actions == [] then before
    else LastHindered(Next(s, actions[0]), actions[1..], x, HinderedBy(s, actions[0], x, before))
  }

  lemma UpsertNextMisses(s: State, x: UnitId, before: bool)
    requires Inv(s) && Enabled(s, UpsertNext) && (before <==> x in s.missed)
    ensures HinderedBy(s, UpsertNext, x, before) <==> x in Next(s, UpsertNext).missed
  {
    var u := s.pass.list[s.pass.done];
    assert IsServed(u, Version(s.source.published, s.pass.snapshot));
    MissedExactlyIf(s, u);
  }

  lemma DeliverMisses(s: State, x: UnitId, before: bool)
    requires Inv(s) && Enabled(s, Deliver) && (before <==> x in s.missed)
    ensures HinderedBy(s, Deliver, x, before) <==> x in Next(s, Deliver).missed
  {
    var ev := s.source.published[s.stream.applied];
    if !ev.Deleted? {
      MirrorReproduces(ev.id, ev.unit.fields);
      MissedExactlyIf(s, Response(ev.id, ev.unit.fields));
    }
  }

  lemma NextMisses(s: State, a: Action, x: UnitId, before: bool)
    requires Inv(s) && (before <==> x in s.missed)
    ensures HinderedBy(s, a, x, before) <==> x in Next(s, a).missed
  {
    if Enabled(s, a) {
      match a
      case UpsertNext => UpsertNextMisses(s, x, before);
      case Deliver => DeliverMisses(s, x, before);
      case _ =>
    }
  }

  lemma {:induction false} HinderedIsMissed(s: State, actions: seq<Action>, x: UnitId, before: bool)
    requires Inv(s) && (before <==> x in s.missed)
    ensures LastHindered(s, actions, x, before) <==> x in Runs(s, actions).missed
    decreases |actions|
  {
    if actions != [] {
      NextKeepsInv(s, actions[0]);
      NextMisses(s, actions[0], x, before);
      HinderedIsMissed(Next(s, actions[0]), actions[1..], x, HinderedBy(s, actions[0], x, before));
    }
  }

  /** Convergence, exactly: after a completed pass of the connection and with the
      stream drained, a unit has here what it has on the remote, or is gone from
      both, if and only if the last attempt at it met no unit of someone else's
      with its id and no other unit with its name. */
  lemma DrainedMirrorAgreesIff(s0: State, actions: seq<Action>, x: UnitId)
    requires Init(s0)
    requires var s := Runs(s0, actions);
             s.synced.Some? && s.stream.Online? && s.stream.applied == |s.source.published|
    ensures var s := Runs(s0, actions);
            MirrorOf(s.local.units, s.remote, x) == Lookup(View(s.source.units), x) <==>
                !LastHindered(s0, actions, x, false)
  {
    RunsKeepInv(s0, actions);
    HinderedIsMissed(s0, actions, x, false);
    DrainedMirrorMisses(Runs(s0, actions), x);
  }

  /** In every reachable state between passes, the connection has been caught up
      by a pass no older than the subscription exactly if a listing no older than
      the subscription was got. */
  lemma CaughtUpExactlyIf(s0: State, actions: seq<Action>)
    requires Init(s0)
    requires var s := Runs(s0, actions); s.stream.Online? && !s.pass.Passing?
    ensures var s := Runs(s0, actions);
            && (s.synced.Some? <==> s.stream.listed)
            && (s.synced.Some? ==> s.stream.subscribed <= s.synced.value.snapshot <= |s.source.published|)
  {
    RunsKeepInv(s0, actions);
  }

  /** No resync is lost: when the worker is idle with no request left, every
      connection has been caught up, unless all its listings failed. */
  lemma NoResyncIsLost(s0: State, actions: seq<Action>)
    requires Init(s0)
    requires var s := Runs(s0, actions); s.stream.Online? && s.stream.requested && s.pass.Idle? && !s.trigger
    ensures var s := Runs(s0, actions);
            || (s.synced.Some? && s.stream.subscribed <= s.synced.value.snapshot <= |s.source.published|)
            || (s.stream.listingFailed && !s.stream.listed)
  {
    RunsKeepInv(s0, actions);
  }

  /** That exception does occur: a request whose listing fails is used up, and
      only the next poll or request tries again. */
  lemma FailedListingWaitsForPoll(s0: State)
    requires Init(s0)
    ensures var s := Runs(s0, [Connect, Request, TakeTrigger, ListFails]);
            s.stream.Online? && s.stream.requested && s.pass.Idle? && !s.trigger && s.synced.None?
  {
    var s1 := Next(s0, Connect);
    var s2 := Next(s1, Request);
    var s3 := Next(s2, TakeTrigger);
    var s4 := Next(s3, ListFails);
    var rest := [Request, TakeTrigger, ListFails];
    assert [Connect, Request, TakeTrigger, ListFails][1..] == rest && rest[1..] == [TakeTrigger, ListFails];
    assert Runs(s0, [Connect, Request, TakeTrigger, ListFails]) == Runs(s1, rest) == Runs(s2, [TakeTrigger, ListFails]);
    assert [TakeTrigger, ListFails][1..] == [ListFails];
    assert Runs(s3, [ListFails]) == s4;
  }
}
