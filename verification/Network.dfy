/** Many instances mirroring one another, in any topology: rings, chains, an
    instance configured with itself, remotes that are pointed at other instances.
    While no unit and no remote is deleted by hand, the origin of a unit alone
    decides its fields.

    The network is looser than the real one: a worker may apply any event its
    peer ever published, at any time, in any order and any number of times. */
module Network {
  import opened Wrappers
  import opened UnitFields
  import opened Store
  import opened StoreLaws
  import opened Ownership
  import opened Passes

  type Instance = nat

  /** A worker: the instance it runs on and the remote it mirrors. */
  type WorkerId = (Instance, RemoteId)

  datatype Passing = Passing(list: seq<RemoteUnit>, done: nat)

  /** `repointed`, `origin` and `past` record history only: whether any remote came
      to be another instance, where each unit was created, and every value its
      fields had there. */
  datatype Net = Net(
    stores: map<Instance, Db>,
    peer: map<WorkerId, Instance>,
    passes: map<WorkerId, Passing>,
    repointed: bool,
    origin: map<UnitId, Instance>,
    past: map<UnitId, set<Input>>)

  datatype Action =
    | Create(at: Instance, id: UnitId, input: Input, user: UserId)
    | Patch(at: Instance, id: UnitId, patch: Input -> Input, user: UserId)
    | Cleanup(at: Instance, cutoff: int)
    | List(w: WorkerId, order: seq<UnitId>)
    | UpsertNext(w: WorkerId)
    | FinishPass(w: WorkerId, mirrored: seq<UnitId>)
    | Deliver(w: WorkerId, k: nat)
    | Repoint(w: WorkerId, instance: Instance)  // the remote's base URL changes, and its worker restarts

  predicate HasWorker(n: Net, w: WorkerId) {
    w in n.peer && w.0 in n.stores && n.peer[w] in n.stores && w.1 in n.stores[w.0].remotes
  }

  function Peer(n: Net, w: WorkerId): Db
    requires HasWorker(n, w)
  {
    n.stores[n.peer[w]]
  }

  /** The peer's listing in some order. */
  function ListingOf(db: Db, order: seq<UnitId>): seq<RemoteUnit>
    requires forall i | 0 <= i < |order| :: order[i] in db.units
  {
    seq(|order|, i requires 0 <= i < |order| => Response(order[i], db.units[order[i]].fields))
  }

  ghost predicate Enabled(n: Net, a: Action) {
    match a
    case Create(at, id, _, _) => at in n.stores && id !in n.origin
    case Patch(at, _, _, _) => at in n.stores
    case Cleanup(at, _) => at in n.stores
    case List(w, order) =>
      HasWorker(n, w) && w !in n.passes
      && (forall i | 0 <= i < |order| :: order[i] in Peer(n, w).units)
          && (forall id | id in Peer(n, w).units :: id in order)
    case UpsertNext(w) => HasWorker(n, w) && w in n.passes && n.passes[w].done < |n.passes[w].list|
    case FinishPass(w, mirrored) =>
      HasWorker(n, w) && w in n.passes && n.passes[w].done == |n.passes[w].list|
          && ListsMirrored(n.stores[w.0], w.1, mirrored)
    case Deliver(w, k) => HasWorker(n, w) && w !in n.passes && k < |Peer(n, w).published|
    case Repoint(w, instance) => HasWorker(n, w) && instance in n.stores
  }

  function WithStore(n: Net, at: Instance, db: Db): Net {
    n.(stores := n.stores[at := db])
  }

  /** A unit's fields at its origin join its past. */
  function Remembered(n: Net, at: Instance, id: UnitId): Net
    requires at in n.stores
  {
    if id in n.stores[at].units then
      var before := if id in n.past then n.past[id] else {};
      n.(origin := if id in n.origin then n.origin else n.origin[id := at],
         past := n.past[id := before + {n.stores[at].units[id].fields}])
    else n
  }

  function Upserting(n: Net, w: WorkerId, u: RemoteUnit): Net
    requires w.0 in n.stores
  {
    WithStore(n, w.0, UpsertIn(n.stores[w.0], w.1, u.id, u.ToInput()).0)
  }

  ghost function Next(n: Net, a: Action): Net {
    if !Enabled(n, a) then n
    else
      match a
      case Create(at, id, input, user) =>
        Remembered(WithStore(n, at, CreateIn(n.stores[at], id, input, user).0), at, id)
      case Patch(at, id, patch, user) =>
        var (db, r) := PatchIn(n.stores[at], id, patch, user);
        if r.Success? then Remembered(WithStore(n, at, db), at, id) else n
      case Cleanup(at, cutoff) => WithStore(n, at, Step(n.stores[at], Op.Cleanup(cutoff)))
      case List(w, order) => n.(passes := n.passes[w := Passing(ListingOf(Peer(n, w), order), 0)])
      case UpsertNext(w) =>
        var p := n.passes[w];
        Upserting(n, w, p.list[p.done]).(passes := n.passes[w := p.(done := p.done + 1)])
      case FinishPass(w, mirrored) =>
        var gone := Unlisted(n.passes[w].list, mirrored);
        WithStore(n, w.0, Run(n.stores[w.0], DeleteOps(w.1, gone))).(passes := n.passes - {w})
      case Repoint(w, instance) => n.(peer := n.peer[w := instance], passes := n.passes - {w}, repointed := true)
      case Deliver(w, k) =>
        match Peer(n, w).published[k]
        case Created(id, unit) => Upserting(n, w, Response(id, unit.fields))
        case Updated(id, unit) => Upserting(n, w, Response(id, unit.fields))
        case Deleted(id) => WithStore(n, w.0, DeleteSyncedIn(n.stores[w.0], w.1, id).0)
  }

  ghost function Runs(n: Net, actions: seq<Action>): Net
    decreases |actions|
  {
    if actions == [] then n else Runs(Next(n, actions[0]), actions[1..])
  }

  // ---------- The invariant ----------

  /** The value is one the unit had at its origin. */
  predicate WasAtOrigin(n: Net, id: UnitId, f: Input) {
    id in n.past && f in n.past[id]
  }

  /** A unit is local exactly at its origin; elsewhere it is mirrored, and from a
      peer that has it unless some remote was repointed. */
  predicate UnitOk(n: Net, at: Instance, id: UnitId)
    requires at in n.stores && id in n.stores[at].units
  {
    var u := n.stores[at].units[id];
    && WasAtOrigin(n, id, u.fields)
    && id in n.origin && (u.owner.None? <==> n.origin[id] == at)
    && (u.owner.Some? && !n.repointed ==>
        (at, u.owner.value) in n.peer && var p := n.peer[(at, u.owner.value)]; p in n.stores && id in n.stores[p].units)
  }

  predicate EventOk(n: Net, at: Instance, k: nat)
    requires at in n.stores && k < |n.stores[at].published|
  {
    var ev := n.stores[at].published[k];
    if ev.Deleted? then n.repointed
    else WasAtOrigin(n, ev.id, ev.unit.fields) && (!n.repointed ==> ev.id in n.stores[at].units)
  }

  /** A listed unit under way holds a value its origin once had. */
  predicate ListedOk(n: Net, w: WorkerId, u: RemoteUnit)
    requires w in n.peer && n.peer[w] in n.stores
  {
    && Applied(u.ToInput()).Success? && WasAtOrigin(n, u.id, Applied(u.ToInput()).value)
    && (!n.repointed ==> u.id in n.stores[n.peer[w]].units)
  }

  ghost predicate PassOk(n: Net, w: WorkerId)
    requires w in n.passes
  {
    && HasWorker(n, w)
    && (forall i | 0 <= i < |n.passes[w].list| :: ListedOk(n, w, n.passes[w].list[i]))
    && (!n.repointed ==>
          forall id | id in n.stores[w.0].units && n.stores[w.0].units[id].owner == Some(w.1) ::
              Listed(n.passes[w].list, id))
  }

  ghost predicate Inv(n: Net) {
    && (forall at | at in n.stores :: Valid(n.stores[at]))
    && (forall at, id {:trigger UnitOk(n, at, id)} | at in n.stores && id in n.stores[at].units :: UnitOk(n, at, id))
    && (forall id | id in n.origin :: n.origin[id] in n.stores && id in n.stores[n.origin[id]].units)
    && (forall at, k: nat {:trigger EventOk(n, at, k)} | at in n.stores && k < |n.stores[at].published| ::
        EventOk(n, at, k))
    && (forall w {:trigger PassOk(n, w)} | w in n.passes :: PassOk(n, w))
    && (forall id | id in n.past :: id in n.origin && forall f | f in n.past[id] :: Normal(f))
  }

  // ---------- Steps ----------

  /** What one store does in a step that deletes nothing. */
  ghost predicate Grows(db: Db, db': Db, id: UnitId) {
    && Valid(db') && db'.remotes == db.remotes && OnlyChanges(db.units, db'.units, id)
    && (id in db.units ==> id in db'.units && db'.units[id].owner == db.units[id].owner)
    && (db'.published == db.published || (id in db'.units && exists ev: Event ::
          db'.published == db.published + [ev] && !ev.Deleted? && ev.id == id && ev.unit == db'.units[id]))
  }

  lemma UpsertGrows(db: Db, remote: RemoteId, u: RemoteUnit)
    requires Valid(db)
    ensures var (db', r) := UpsertIn(db, remote, u.id, u.ToInput());
            && Grows(db, db', u.id)
            && (r.Failure? ==> db' == db)
            && (r.Success? ==>
                  && Applied(u.ToInput()).Success? && u.id in db'.units && db'.units[u.id].owner == Some(remote)
                  && db'.units[u.id].fields == Applied(u.ToInput()).value)
  {
    UpsertEffect(db, remote, u.id, u.ToInput());
    UpsertKeepsValid(db, remote, u.id, u.ToInput());
  }

  lemma CreateGrows(db: Db, id: UnitId, input: Input, user: UserId)
    requires Valid(db) && id !in db.units
    ensures var (db', r) := CreateIn(db, id, input, user);
            Grows(db, db', id) && (id in db'.units ==> db'.units[id].owner.None? && Normal(db'.units[id].fields))
                && (id !in db'.units ==> db' == db)
  {
    LocalWriteKeepsValid(db, Op.Create(id, input, user));
  }

  lemma PatchGrows(db: Db, id: UnitId, patch: Input -> Input, user: UserId)
    requires Valid(db)
    ensures var (db', r) := PatchIn(db, id, patch, user);
            && Grows(db, db', id)
            && (r.Failure? ==> db' == db)
            && (r.Success? ==> id in db'.units && db'.units[id].owner.None? && Normal(db'.units[id].fields))
  {
    LocalWriteKeepsValid(db, Op.Patch(id, patch, user));
    var (db', r) := PatchIn(db, id, patch, user);
    if r.Success? {
      if r.value.1 == [] {
        assert db' == db;
      } else {
        PatchPublishes(db, id, patch, user);
      }
    }
  }

  lemma PatchPublishes(db: Db, id: UnitId, patch: Input -> Input, user: UserId)
    requires PatchIn(db, id, patch, user).1.Success? && PatchIn(db, id, patch, user).1.value.1 != []
    ensures var db' := PatchIn(db, id, patch, user).0;
            && id in db'.units && db'.published == db.published + [Updated(id, db'.units[id])]
            && OnlyChanges(db.units, db'.units, id) && db'.remotes == db.remotes
                && db'.units[id].owner == db.units[id].owner
  {
  }

  ghost predicate Remembers(n: Net, n': Net) {
    && (forall x | x in n.origin :: x in n'.origin && n'.origin[x] == n.origin[x])
    && (forall x, f | WasAtOrigin(n, x, f) :: WasAtOrigin(n', x, f))
  }

  ghost predicate StoresGrow(n: Net, n': Net) {
    forall a, x | a in n.stores && x in n.stores[a].units :: a in n'.stores && x in n'.stores[a].units
  }

  /** From `n` to `n'` only unit `id` at instance `at` was written. */
  ghost predicate OneWrite(n: Net, n': Net, at: Instance, id: UnitId) {
    && at in n.stores && at in n'.stores && n'.stores == n.stores[at := n'.stores[at]] && n'.peer == n.peer
        && n'.passes == n.passes
    && n'.repointed == n.repointed && Grows(n.stores[at], n'.stores[at], id)
    && Remembers(n, n')
    && (forall x | x in n'.origin && x !in n.origin :: x == id && n'.origin[id] == at && id in n'.stores[at].units)
    && (forall x | x in n'.past :: x in n'.origin && forall f | f in n'.past[x] :: Normal(f))
    && (id in n'.stores[at].units ==> UnitOk(n', at, id))
    && ListedIfOwned(n, n', at, id)
  }

  ghost predicate ListedIfOwned(n: Net, n': Net, at: Instance, id: UnitId)
    requires at in n'.stores
  {
    !n.repointed ==>
      forall w | w in n.passes && w.0 == at && id in n'.stores[at].units
          && n'.stores[at].units[id].owner == Some(w.1) ::
        Listed(n.passes[w].list, id)
  }

  lemma UnitStaysOk(n: Net, n': Net, a: Instance, x: UnitId)
    requires a in n.stores && x in n.stores[a].units && UnitOk(n, a, x)
    requires a in n'.stores && x in n'.stores[a].units && n'.stores[a].units[x] == n.stores[a].units[x]
    requires n'.peer == n.peer && n'.repointed == n.repointed && Remembers(n, n') && StoresGrow(n, n')
    ensures UnitOk(n', a, x)
  {
  }

  lemma OneWriteGrows(n: Net, n': Net, at: Instance, id: UnitId)
    requires OneWrite(n, n', at, id)
    ensures StoresGrow(n, n')
  {
  }

  lemma WriteKeepsUnit(n: Net, n': Net, at: Instance, id: UnitId, a: Instance, x: UnitId)
    requires OneWrite(n, n', at, id) && a in n'.stores && x in n'.stores[a].units
    requires a in n.stores && x in n.stores[a].units ==> UnitOk(n, a, x)
    ensures UnitOk(n', a, x)
  {
    if a != at || x != id {
      OneWriteGrows(n, n', at, id);
      UnitStaysOk(n, n', a, x);
    }
  }

  lemma WriteKeepsEvent(n: Net, n': Net, at: Instance, id: UnitId, a: Instance, k: nat)
    requires Inv(n) && OneWrite(n, n', at, id) && a in n'.stores && k < |n'.stores[a].published|
    ensures EventOk(n', a, k)
  {
    if k < |n.stores[a].published| {
      assert EventOk(n, a, k);
    } else {
      assert a == at;
      var ev: Event :| n'.stores[at].published == n.stores[at].published + [ev] && !ev.Deleted? && ev.id == id
          && ev.unit == n'.stores[at].units[id];
      assert n'.stores[at].published[k] == ev;
    }
  }

  lemma WriteKeepsPass(n: Net, n': Net, at: Instance, id: UnitId, w: WorkerId)
    requires Inv(n) && OneWrite(n, n', at, id) && w in n'.passes
    ensures PassOk(n', w)
  {
    assert PassOk(n, w);
    forall i | 0 <= i < |n'.passes[w].list| ensures ListedOk(n', w, n'.passes[w].list[i]) {
      assert ListedOk(n, w, n.passes[w].list[i]);
    }
  }

  lemma WriteKeepsInv(n: Net, n': Net, at: Instance, id: UnitId)
    requires Inv(n) && OneWrite(n, n', at, id)
    ensures Inv(n')
  {
    forall a, x | a in n'.stores && x in n'.stores[a].units ensures UnitOk(n', a, x) {
      if a in n.stores && x in n.stores[a].units {
        assert UnitOk(n, a, x);
      }
      WriteKeepsUnit(n, n', at, id, a, x);
    }
    forall a, k: nat | a in n'.stores && k < |n'.stores[a].published| ensures EventOk(n', a, k) {
      WriteKeepsEvent(n, n', at, id, a, k);
    }
    forall w | w in n'.passes ensures PassOk(n', w) {
      WriteKeepsPass(n, n', at, id, w);
    }
  }

  lemma UpsertedUnitIsOk(n: Net, w: WorkerId, u: RemoteUnit)
    requires HasWorker(n, w) && ListedOk(n, w, u) && Valid(n.stores[w.0])
    requires u.id in n.stores[w.0].units ==> UnitOk(n, w.0, u.id)
    requires u.id in n.origin && (n.origin[u.id] == w.0 ==> u.id in n.stores[w.0].units)
    requires u.id in Upserting(n, w, u).stores[w.0].units
    ensures UnitOk(Upserting(n, w, u), w.0, u.id)
    ensures var owner := Upserting(n, w, u).stores[w.0].units[u.id].owner;
            owner == Some(w.1) || (u.id in n.stores[w.0].units && n.stores[w.0].units[u.id].owner == owner)
  {
    var db := n.stores[w.0];
    UpsertGrows(db, w.1, u);
    if UpsertIn(db, w.1, u.id, u.ToInput()).1.Success? && u.id in db.units {
      assert db.units[u.id].owner == Some(w.1);
    }
  }

  lemma UpsertedUnitIsListed(n: Net, w: WorkerId, u: RemoteUnit)
    requires Inv(n) && HasWorker(n, w) && ListedOk(n, w, u)
    requires w in n.passes ==> Listed(n.passes[w].list, u.id)
    requires var n' := Upserting(n, w, u);
             u.id in n'.stores[w.0].units ==>
               n'.stores[w.0].units[u.id].owner == Some(w.1)
               || (u.id in n.stores[w.0].units && n.stores[w.0].units[u.id].owner == n'.stores[w.0].units[u.id].owner)
    ensures ListedIfOwned(n, Upserting(n, w, u), w.0, u.id)
  {
    var n' := Upserting(n, w, u);
    forall v | !n.repointed && v in n.passes && v.0 == w.0 && u.id in n'.stores[w.0].units
        && n'.stores[w.0].units[u.id].owner == Some(v.1)
      ensures Listed(n.passes[v].list, u.id)
    {
      assert PassOk(n, v);
    }
  }

  lemma WithStoreIsOneWrite(n: Net, at: Instance, db': Db, id: UnitId)
    requires Inv(n) && at in n.stores && Grows(n.stores[at], db', id)
    requires id in db'.units ==> UnitOk(WithStore(n, at, db'), at, id)
    requires ListedIfOwned(n, WithStore(n, at, db'), at, id)
    ensures OneWrite(n, WithStore(n, at, db'), at, id)
  {
  }

  /** Mirroring a value the origin once had, from a peer that has the unit. */
  lemma UpsertingIsOneWrite(n: Net, w: WorkerId, u: RemoteUnit)
    requires Inv(n) && HasWorker(n, w) && ListedOk(n, w, u)
    requires w in n.passes ==> Listed(n.passes[w].list, u.id)
    ensures OneWrite(n, Upserting(n, w, u), w.0, u.id)
  {
    var n' := Upserting(n, w, u);
    if u.id in n'.stores[w.0].units {
      if u.id in n.stores[w.0].units {
        assert UnitOk(n, w.0, u.id);
      }
      UpsertedUnitIsOk(n, w, u);
    }
    UpsertedUnitIsListed(n, w, u);
    UpsertGrows(n.stores[w.0], w.1, u);
    WithStoreIsOneWrite(n, w.0, UpsertIn(n.stores[w.0], w.1, u.id, u.ToInput()).0, u.id);
  }

  lemma EventIsListedOk(n: Net, w: WorkerId, k: nat)
    requires Inv(n) && HasWorker(n, w) && k < |Peer(n, w).published| && !Peer(n, w).published[k].Deleted?
    ensures var ev := Peer(n, w).published[k];
            ListedOk(n, w, Response(ev.id, ev.unit.fields))
  {
    assert EventOk(n, n.peer[w], k);
    var ev := Peer(n, w).published[k];
    MirrorReproduces(ev.id, ev.unit.fields);
  }

  lemma DeliverKeeps(n: Net, w: WorkerId, k: nat)
    requires Inv(n)
    ensures Inv(Next(n, Deliver(w, k)))
  {
    if Enabled(n, Deliver(w, k)) {
      var ev := Peer(n, w).published[k];
      if ev.Deleted? {
        assert EventOk(n, n.peer[w], k);
        DeletionShrinks(n.stores[w.0], w.1, ev.id);
        ShrinkKeeps(n, w.0, DeleteSyncedIn(n.stores[w.0], w.1, ev.id).0, w.1);
      } else {
        EventIsListedOk(n, w, k);
        var u := Response(ev.id, ev.unit.fields);
        UpsertingIsOneWrite(n, w, u);
        WriteKeepsInv(n, Upserting(n, w, u), w.0, u.id);
      }
    }
  }

  // ---------- Deletions, once a remote was repointed ----------

  /** A store from which nothing went but units mirrored from the remote, with an
      event for each. */
  ghost predicate Shrinks(db: Db, db': Db, remote: RemoteId) {
    && Valid(db') && db'.remotes == db.remotes
    && (forall x | x in db'.units :: x in db.units && db'.units[x] == db.units[x])
    && (forall x | x in db.units && x !in db'.units :: db.units[x].owner == Some(remote))
    && db.published <= db'.published
    && (forall k | |db.published| <= k < |db'.published| :: db'.published[k].Deleted?)
  }

  lemma DeletionShrinks(db: Db, remote: RemoteId, id: UnitId)
    requires Valid(db)
    ensures Shrinks(db, DeleteSyncedIn(db, remote, id).0, remote)
  {
    RemovalKeepsValid(db, id);
  }

  lemma ShrinksTransitive(a: Db, b: Db, c: Db, remote: RemoteId)
    requires Shrinks(a, b, remote) && Shrinks(b, c, remote)
    ensures Shrinks(a, c, remote)
  {
  }

  lemma {:induction false} DeletionsShrink(db: Db, remote: RemoteId, ids: seq<UnitId>)
    requires Valid(db)
    ensures Shrinks(db, Run(db, DeleteOps(remote, ids)), remote)
  {
    if ids == [] {
      assert DeleteOps(remote, ids) == [];
    } else {
      var init, last := ids[..|ids| - 1], ids[|ids| - 1];
      assert ids == init + [last];
      DeletionsShrink(db, remote, init);
      DeletedAppend(db, remote, init, last);
      DeletionShrinks(Run(db, DeleteOps(remote, init)), remote, last);
      ShrinksTransitive(db, Run(db, DeleteOps(remote, init)), Run(db, DeleteOps(remote, ids)), remote);
    }
  }

  lemma ShrinkKeepsPass(n: Net, at: Instance, db': Db, remote: RemoteId, v: WorkerId)
    requires Inv(n) && n.repointed && at in n.stores && Shrinks(n.stores[at], db', remote) && v in n.passes
    ensures PassOk(WithStore(n, at, db'), v)
  {
    var n' := WithStore(n, at, db');
    assert PassOk(n, v);
    forall i | 0 <= i < |n'.passes[v].list| ensures ListedOk(n', v, n'.passes[v].list[i]) {
      assert ListedOk(n, v, n.passes[v].list[i]);
    }
  }

  lemma ShrinkKeepsEvent(n: Net, at: Instance, db': Db, remote: RemoteId, a: Instance, k: nat)
    requires Inv(n) && n.repointed && at in n.stores && Shrinks(n.stores[at], db', remote)
    requires a in WithStore(n, at, db').stores && k < |WithStore(n, at, db').stores[a].published|
    ensures EventOk(WithStore(n, at, db'), a, k)
  {
    if k < |n.stores[a].published| {
      assert EventOk(n, a, k);
    }
  }

  lemma ShrinkKeepsUnit(n: Net, at: Instance, db': Db, remote: RemoteId, a: Instance, x: UnitId)
    requires Inv(n) && n.repointed && at in n.stores && Shrinks(n.stores[at], db', remote)
    requires a in WithStore(n, at, db').stores && x in WithStore(n, at, db').stores[a].units
    ensures UnitOk(WithStore(n, at, db'), a, x)
  {
    assert UnitOk(n, a, x);
  }

  lemma ShrinkKeepsOrigin(n: Net, at: Instance, db': Db, remote: RemoteId, x: UnitId)
    requires Inv(n) && at in n.stores && Shrinks(n.stores[at], db', remote) && x in n.origin
    ensures n.origin[x] in n.stores && x in WithStore(n, at, db').stores[n.origin[x]].units
  {
    assert UnitOk(n, n.origin[x], x);
  }

  /** Deleting mirrored units leaves origins, and what is known of the units. */
  lemma ShrinkKeeps(n: Net, at: Instance, db': Db, remote: RemoteId)
    requires Inv(n) && n.repointed && at in n.stores && Shrinks(n.stores[at], db', remote)
    ensures Inv(WithStore(n, at, db'))
  {
    var n' := WithStore(n, at, db');
    forall a, x | a in n'.stores && x in n'.stores[a].units ensures UnitOk(n', a, x) {
      ShrinkKeepsUnit(n, at, db', remote, a, x);
    }
    forall a, k: nat | a in n'.stores && k < |n'.stores[a].published| ensures EventOk(n', a, k) {
      ShrinkKeepsEvent(n, at, db', remote, a, k);
    }
    forall v | v in n'.passes ensures PassOk(n', v) {
      ShrinkKeepsPass(n, at, db', remote, v);
    }
    forall x | x in n.origin ensures n.origin[x] in n.stores && x in n'.stores[n.origin[x]].units {
      ShrinkKeepsOrigin(n, at, db', remote, x);
    }
  }

  lemma RepointKeeps(n: Net, w: WorkerId, instance: Instance)
    requires Inv(n)
    ensures Inv(Next(n, Repoint(w, instance)))
  {
    if Enabled(n, Repoint(w, instance)) {
      var n' := Next(n, Repoint(w, instance));
      forall a, x | a in n'.stores && x in n'.stores[a].units ensures UnitOk(n', a, x) {
        assert UnitOk(n, a, x);
      }
      forall a, k: nat | a in n'.stores && k < |n'.stores[a].published| ensures EventOk(n', a, k) {
        assert EventOk(n, a, k);
      }
      forall v | v in n'.passes ensures PassOk(n', v) {
        RepointKeepsPass(n, w, instance, v);
      }
    }
  }

  lemma RepointKeepsPass(n: Net, w: WorkerId, instance: Instance, v: WorkerId)
    requires Inv(n) && Enabled(n, Repoint(w, instance)) && v in n.passes && v != w
    ensures PassOk(Next(n, Repoint(w, instance)), v)
  {
    var n' := Next(n, Repoint(w, instance));
    assert PassOk(n, v);
    forall i | 0 <= i < |n'.passes[v].list| ensures ListedOk(n', v, n'.passes[v].list[i]) {
      assert ListedOk(n, v, n.passes[v].list[i]);
    }
  }

  lemma PassCountKeeps(n: Net, w: WorkerId, done: nat, n': Net)
    requires Inv(n) && w in n.passes && n' == n.(passes := n'.passes)
    requires n'.passes == n.passes[w := Passing(n.passes[w].list, done)]
    ensures Inv(n')
  {
    forall v | v in n'.passes ensures PassOk(n', v) {
      SamePassOk(n, n', v);
    }
    SameStoresKeep(n, n');
  }

  /** A pass is as it was, up to its count. */
  lemma SamePassOk(n: Net, n': Net, v: WorkerId)
    requires Inv(n) && n' == n.(passes := n'.passes)
    requires v in n.passes && v in n'.passes && n'.passes[v].list == n.passes[v].list
    ensures PassOk(n', v)
  {
    assert PassOk(n, v);
    forall i | 0 <= i < |n'.passes[v].list| ensures ListedOk(n', v, n'.passes[v].list[i]) {
      assert ListedOk(n, v, n.passes[v].list[i]);
    }
  }

  lemma SameStoresKeep(n: Net, n': Net)
    requires Inv(n) && n' == n.(passes := n'.passes)
    requires forall v | v in n'.passes :: PassOk(n', v)
    ensures Inv(n')
  {
    forall a, x | a in n'.stores && x in n'.stores[a].units ensures UnitOk(n', a, x) {
      assert UnitOk(n, a, x);
    }
    forall a, k: nat | a in n'.stores && k < |n'.stores[a].published| ensures EventOk(n', a, k) {
      assert EventOk(n, a, k);
    }
  }

  lemma UpsertNextKeeps(n: Net, w: WorkerId)
    requires Inv(n)
    ensures Inv(Next(n, UpsertNext(w)))
  {
    if Enabled(n, UpsertNext(w)) {
      ListedUpsertKeeps(n, w);
      var n' := Upserting(n, w, n.passes[w].list[n.passes[w].done]);
      PassCountKeeps(n', w, n.passes[w].done + 1, Next(n, UpsertNext(w)));
    }
  }

  lemma ListedUpsertKeeps(n: Net, w: WorkerId)
    requires Inv(n) && Enabled(n, UpsertNext(w))
    ensures Inv(Upserting(n, w, n.passes[w].list[n.passes[w].done]))
  {
    var u := n.passes[w].list[n.passes[w].done];
    assert PassOk(n, w) && ListedOk(n, w, u) && Listed(n.passes[w].list, u.id);
    UpsertingIsOneWrite(n, w, u);
    WriteKeepsInv(n, Upserting(n, w, u), w.0, u.id);
  }

  lemma ListKeeps(n: Net, w: WorkerId, order: seq<UnitId>)
    requires Inv(n)
    ensures Inv(Next(n, List(w, order)))
  {
    if Enabled(n, List(w, order)) {
      var n' := Next(n, List(w, order));
      var list := ListingOf(Peer(n, w), order);
      forall i | 0 <= i < |list| ensures ListedOk(n', w, list[i]) {
        assert UnitOk(n, n.peer[w], order[i]);
        MirrorReproduces(order[i], Peer(n, w).units[order[i]].fields);
      }
      forall id | !n.repointed && id in n.stores[w.0].units && n.stores[w.0].units[id].owner == Some(w.1)
        ensures Listed(list, id)
      {
        assert UnitOk(n, w.0, id);
        var i :| 0 <= i < |order| && order[i] == id;
        assert list[i].id == id;
      }
      forall v | v in n'.passes ensures PassOk(n', v) {
        if v != w {
          assert PassOk(n, v);
          forall i | 0 <= i < |n'.passes[v].list| ensures ListedOk(n', v, n'.passes[v].list[i]) {
            assert ListedOk(n, v, n.passes[v].list[i]);
          }
        }
      }
      SameStoresKeep(n, n');
    }
  }

  lemma {:induction false} AllListed(list: seq<RemoteUnit>, ids: seq<UnitId>)
    requires forall i | 0 <= i < |ids| :: Listed(list, ids[i])
    ensures Unlisted(list, ids) == []
  {
    if ids != [] {
      AllListed(list, ids[..|ids| - 1]);
    }
  }

  /** While no remote was repointed, no pass deletes a mirrored unit. */
  lemma PassDeletesNothing(n: Net, w: WorkerId, mirrored: seq<UnitId>)
    requires Inv(n) && Enabled(n, FinishPass(w, mirrored)) && !n.repointed
    ensures Unlisted(n.passes[w].list, mirrored) == []
    ensures Next(n, FinishPass(w, mirrored)) == n.(passes := n.passes - {w})
  {
    assert PassOk(n, w);
    forall i | 0 <= i < |mirrored| ensures Listed(n.passes[w].list, mirrored[i]) {
      assert mirrored[i] in mirrored;
    }
    AllListed(n.passes[w].list, mirrored);
    assert DeleteOps(w.1, []) == [];
    assert n.stores[w.0 := n.stores[w.0]] == n.stores;
  }

  /** What a pass deletes, repointed or not: the mirrored units it did not list. */
  lemma PassDeletesExactly(n: Net, w: WorkerId, mirrored: seq<UnitId>, id: UnitId)
    requires Enabled(n, FinishPass(w, mirrored)) && id in n.stores[w.0].units
    ensures id !in Next(n, FinishPass(w, mirrored)).stores[w.0].units <==>
              n.stores[w.0].units[id].owner == Some(w.1) && !Listed(n.passes[w].list, id)
  {
    DeletedUnit(n.stores[w.0], w.1, Unlisted(n.passes[w].list, mirrored), id);
  }

  lemma PassForgottenKeeps(n: Net, w: WorkerId, n': Net)
    requires Inv(n) && n' == n.(passes := n.passes - {w})
    ensures Inv(n')
  {
    forall v | v in n'.passes ensures PassOk(n', v) {
      SamePassOk(n, n', v);
    }
    SameStoresKeep(n, n');
  }

  lemma FinishKeeps(n: Net, w: WorkerId, mirrored: seq<UnitId>)
    requires Inv(n)
    ensures Inv(Next(n, FinishPass(w, mirrored)))
  {
    if Enabled(n, FinishPass(w, mirrored)) {
      var n' := Next(n, FinishPass(w, mirrored));
      if n.repointed {
        var gone := Unlisted(n.passes[w].list, mirrored);
        var db' := Run(n.stores[w.0], DeleteOps(w.1, gone));
        DeletionsShrink(n.stores[w.0], w.1, gone);
        ShrinkKeeps(n, w.0, db', w.1);
        PassForgottenKeeps(WithStore(n, w.0, db'), w, n');
      } else {
        PassDeletesNothing(n, w, mirrored);
        PassForgottenKeeps(n, w, n');
      }
    }
  }

  lemma UnitsAreKnown(n: Net, at: Instance)
    requires Inv(n) && at in n.stores
    ensures forall id | id in n.stores[at].units :: id in n.origin
  {
    forall id | id in n.stores[at].units ensures id in n.origin {
      assert UnitOk(n, at, id);
    }
  }

  lemma RememberedRemembers(n: Net, at: Instance, id: UnitId, db': Db)
    requires at in n.stores && id in db'.units && Normal(db'.units[id].fields)
        && (id in n.origin ==> n.origin[id] == at)
    requires forall x | x in n.past :: x in n.origin && forall f | f in n.past[x] :: Normal(f)
    ensures var n' := Remembered(WithStore(n, at, db'), at, id);
            && Remembers(n, n') && WasAtOrigin(n', id, db'.units[id].fields)
            && id in n'.origin && n'.origin[id] == at
            && (forall x | x in n'.origin && x !in n.origin :: x == id)
            && (forall x | x in n'.past :: x in n'.origin && forall f | f in n'.past[x] :: Normal(f))
  {
  }

  /** A local write at the unit's origin, and its value joining the past. */
  lemma LocalWriteIsOneWrite(n: Net, at: Instance, id: UnitId, db': Db)
    requires Inv(n) && at in n.stores && Grows(n.stores[at], db', id)
    requires id in db'.units && db'.units[id].owner.None? && Normal(db'.units[id].fields)
    requires id in n.origin ==> n.origin[id] == at
    ensures OneWrite(n, Remembered(WithStore(n, at, db'), at, id), at, id)
  {
    RememberedRemembers(n, at, id, db');
    var n' := Remembered(WithStore(n, at, db'), at, id);
    assert UnitOk(n', at, id);
    assert n'.stores == n.stores[at := db'] && n'.stores[at] == db';
  }

  lemma CreateKeeps(n: Net, at: Instance, id: UnitId, input: Input, user: UserId)
    requires Inv(n)
    ensures Inv(Next(n, Action.Create(at, id, input, user)))
  {
    if Enabled(n, Action.Create(at, id, input, user)) {
      UnitsAreKnown(n, at);
      CreateGrows(n.stores[at], id, input, user);
      var db' := CreateIn(n.stores[at], id, input, user).0;
      if id in db'.units {
        LocalWriteIsOneWrite(n, at, id, db');
        WriteKeepsInv(n, Next(n, Action.Create(at, id, input, user)), at, id);
      } else {
        assert n.stores[at := n.stores[at]] == n.stores;
      }
    }
  }

  lemma PatchKeeps(n: Net, at: Instance, id: UnitId, patch: Input -> Input, user: UserId)
    requires Inv(n)
    ensures Inv(Next(n, Action.Patch(at, id, patch, user)))
  {
    if Enabled(n, Action.Patch(at, id, patch, user)) && PatchIn(n.stores[at], id, patch, user).1.Success? {
      PatchGrows(n.stores[at], id, patch, user);
      assert UnitOk(n, at, id);
      LocalWriteIsOneWrite(n, at, id, PatchIn(n.stores[at], id, patch, user).0);
      WriteKeepsInv(n, Next(n, Action.Patch(at, id, patch, user)), at, id);
    }
  }

  lemma CleanupKeepsPass(n: Net, n': Net, v: WorkerId)
    requires v in n.passes && PassOk(n, v) && n'.passes == n.passes && n'.peer == n.peer && n'.past == n.past
        && n'.repointed == n.repointed
    requires n'.stores.Keys == n.stores.Keys
    requires forall a | a in n.stores ::
        n'.stores[a].units == n.stores[a].units && n'.stores[a].remotes == n.stores[a].remotes
    ensures PassOk(n', v)
  {
    forall i | 0 <= i < |n'.passes[v].list| ensures ListedOk(n', v, n'.passes[v].list[i]) {
      assert ListedOk(n, v, n.passes[v].list[i]);
    }
  }

  /** The stores differ in their histories only. */
  ghost predicate OnlyHistories(n: Net, n': Net) {
    && n' == n.(stores := n'.stores) && n'.stores.Keys == n.stores.Keys
    && forall a | a in n.stores ::
         n'.stores[a].units == n.stores[a].units && n'.stores[a].remotes == n.stores[a].remotes
             && n'.stores[a].published == n.stores[a].published
  }

  lemma CleanupKeepsUnit(n: Net, n': Net, a: Instance, x: UnitId)
    requires OnlyHistories(n, n') && a in n.stores && x in n.stores[a].units && UnitOk(n, a, x)
    ensures UnitOk(n', a, x)
  {
    UnitStaysOk(n, n', a, x);
  }

  lemma CleanupKeepsOthers(n: Net, n': Net)
    requires Inv(n) && OnlyHistories(n, n') && forall a | a in n.stores :: Valid(n'.stores[a])
    ensures Inv(n')
  {
    forall a, x | a in n'.stores && x in n'.stores[a].units ensures UnitOk(n', a, x) {
      assert UnitOk(n, a, x);
      CleanupKeepsUnit(n, n', a, x);
    }
    forall a, k: nat | a in n'.stores && k < |n'.stores[a].published| ensures EventOk(n', a, k) {
      assert EventOk(n, a, k);
    }
    forall v | v in n'.passes ensures PassOk(n', v) {
      assert PassOk(n, v);
      CleanupKeepsPass(n, n', v);
    }
  }

  lemma HistoryOnly(n: Net, at: Instance, db': Db)
    requires at in n.stores && db' == n.stores[at].(history := db'.history) && Valid(db')
    requires forall a | a in n.stores :: Valid(n.stores[a])
    ensures OnlyHistories(n, WithStore(n, at, db')) && forall a | a in n.stores ::
        Valid(WithStore(n, at, db').stores[a])
  {
  }

  lemma CleanupKeeps(n: Net, at: Instance, cutoff: int)
    requires Inv(n)
    ensures Inv(Next(n, Action.Cleanup(at, cutoff)))
  {
    if Enabled(n, Action.Cleanup(at, cutoff)) {
      CleanupKeepsValid(n.stores[at], cutoff);
      HistoryOnly(n, at, Step(n.stores[at], Op.Cleanup(cutoff)));
      CleanupKeepsOthers(n, Next(n, Action.Cleanup(at, cutoff)));
    }
  }

  lemma NextKeepsInv(n: Net, a: Action)
    requires Inv(n)
    ensures Inv(Next(n, a))
  {
    match a
    case Create(at, id, input, user) => CreateKeeps(n, at, id, input, user);
    case Patch(at, id, patch, user) => PatchKeeps(n, at, id, patch, user);
    case Cleanup(at, cutoff) => CleanupKeeps(n, at, cutoff);
    case List(w, order) => ListKeeps(n, w, order);
    case UpsertNext(w) => UpsertNextKeeps(n, w);
    case FinishPass(w, mirrored) => FinishKeeps(n, w, mirrored);
    case Deliver(w, k) => DeliverKeeps(n, w, k);
    case Repoint(w, instance) => RepointKeeps(n, w, instance);
  }

  lemma {:induction false} RunsKeepInv(n: Net, actions: seq<Action>)
    requires Inv(n)
    ensures Inv(Runs(n, actions))
    decreases |actions|
  {
    if actions != [] {
      NextKeepsInv(n, actions[0]);
      RunsKeepInv(Next(n, actions[0]), actions[1..]);
    }
  }

  /** Instances that start empty, with any remotes configured between them. */
  ghost predicate Init(n: Net) {
    && (forall at | at in n.stores ::
        n.stores[at].units == map[] && n.stores[at].history == [] && n.stores[at].published == [])
    && n.passes == map[] && !n.repointed && n.origin == map[] && n.past == map[]
  }

  // ---------- What it means ----------

  /** In every reachable network, each copy of a unit, each published event and
      each listed value under way is one the unit's origin once had. */
  lemma OnlyOriginValues(n0: Net, actions: seq<Action>)
    requires Init(n0)
    ensures var n := Runs(n0, actions);
            && (forall at, id | at in n.stores && id in n.stores[at].units ::
                WasAtOrigin(n, id, n.stores[at].units[id].fields))
            && (forall at, k: nat | at in n.stores && k < |n.stores[at].published| ::
                  n.stores[at].published[k].Deleted?
                      || WasAtOrigin(n, n.stores[at].published[k].id, n.stores[at].published[k].unit.fields))
            && (!n.repointed ==>
                  forall at, k: nat | at in n.stores && k < |n.stores[at].published| ::
                      !n.stores[at].published[k].Deleted?)
            && (forall w, i | w in n.passes && 0 <= i < |n.passes[w].list| ::
                  Applied(n.passes[w].list[i].ToInput()).Success?
                      && WasAtOrigin(n, n.passes[w].list[i].id, Applied(n.passes[w].list[i].ToInput()).value))
  {
    RunsKeepInv(n0, actions);
    var n := Runs(n0, actions);
    forall at, id | at in n.stores && id in n.stores[at].units
        ensures WasAtOrigin(n, id, n.stores[at].units[id].fields) {
      assert UnitOk(n, at, id);
    }
    forall at, k: nat | at in n.stores && k < |n.stores[at].published|
      ensures n.stores[at].published[k].Deleted?
          || WasAtOrigin(n, n.stores[at].published[k].id, n.stores[at].published[k].unit.fields)
      ensures n.stores[at].published[k].Deleted? ==> n.repointed
    {
      assert EventOk(n, at, k);
    }
    forall w, i | w in n.passes && 0 <= i < |n.passes[w].list|
      ensures Applied(n.passes[w].list[i].ToInput()).Success?
          && WasAtOrigin(n, n.passes[w].list[i].id, Applied(n.passes[w].list[i].ToInput()).value)
    {
      assert PassOk(n, w) && ListedOk(n, w, n.passes[w].list[i]);
    }
  }

  /** The unit at its origin is the same, its history included. */
  predicate HomeSame(n: Net, n': Net, id: UnitId)
    requires id in n.origin
  {
    var at := n.origin[id];
    at in n.stores && at in n'.stores && SameUnit(n.stores[at], n'.stores[at], id, false)
  }

  predicate IsSync(a: Action) {
    a.List? || a.UpsertNext? || a.FinishPass? || a.Deliver? || a.Repoint?
  }

  lemma UpsertingLeavesOrigin(n: Net, w: WorkerId, u: RemoteUnit, id: UnitId)
    requires Inv(n) && w.0 in n.stores && id in n.origin
    ensures HomeSame(n, Upserting(n, w, u), id)
  {
    var at := n.origin[id];
    assert UnitOk(n, at, id);
    if w.0 == at {
      UpsertLeavesOthers(n.stores[at], w.1, u.id, u.ToInput(), id);
    }
  }

  /** No sync step, of whatever worker anywhere, changes a unit at its origin. */
  lemma SyncLeavesOrigins(n0: Net, actions: seq<Action>, a: Action, id: UnitId)
    requires Init(n0) && IsSync(a) && id in Runs(n0, actions).origin
    ensures HomeSame(Runs(n0, actions), Next(Runs(n0, actions), a), id)
  {
    RunsKeepInv(n0, actions);
    SyncStepLeavesOrigin(Runs(n0, actions), a, id);
  }

  lemma DeliverIsUpserting(n: Net, w: WorkerId, k: nat) returns (u: RemoteUnit)
    requires Inv(n) && Enabled(n, Deliver(w, k)) && !Peer(n, w).published[k].Deleted?
    ensures Next(n, Deliver(w, k)) == Upserting(n, w, u)
  {
    EventIsListedOk(n, w, k);
    var ev := Peer(n, w).published[k];
    u := Response(ev.id, ev.unit.fields);
  }

  lemma StayingLeavesOrigin(n: Net, n': Net, id: UnitId)
    requires Inv(n) && id in n.origin && n'.stores == n.stores
    ensures HomeSame(n, n', id)
  {
  }

  /** Deletions by a worker take mirrored units only. */
  lemma DeletionsLeaveOrigin(n: Net, n': Net, at: Instance, ops: seq<Op>, remote: RemoteId, id: UnitId)
    requires Inv(n) && at in n.stores && id in n.origin && n'.stores == n.stores[at := Run(n.stores[at], ops)]
    requires forall op | op in ops :: op.DeleteSynced? && op.remote == remote
    ensures HomeSame(n, n', id)
  {
    assert UnitOk(n, n.origin[id], id);
    if at == n.origin[id] {
      RunLeavesOthers(n.stores[at], ops, id);
    } else {
      StayingLeavesOrigin(n, n, id);
    }
  }

  lemma DeliveryLeavesOrigin(n: Net, w: WorkerId, k: nat, id: UnitId)
    requires Inv(n) && Enabled(n, Deliver(w, k)) && id in n.origin
    ensures HomeSame(n, Next(n, Deliver(w, k)), id)
  {
    var ev := Peer(n, w).published[k];
    if ev.Deleted? {
      RunAppend(n.stores[w.0], [], Op.DeleteSynced(w.1, ev.id));
      DeletionsLeaveOrigin(n, Next(n, Deliver(w, k)), w.0, [] + [Op.DeleteSynced(w.1, ev.id)], w.1, id);
    } else {
      var u := DeliverIsUpserting(n, w, k);
      UpsertingLeavesOrigin(n, w, u, id);
    }
  }

  lemma UpsertNextLeavesOrigin(n: Net, w: WorkerId, id: UnitId)
    requires Inv(n) && Enabled(n, UpsertNext(w)) && id in n.origin
    ensures HomeSame(n, Next(n, UpsertNext(w)), id)
  {
    UpsertingLeavesOrigin(n, w, n.passes[w].list[n.passes[w].done], id);
  }

  lemma FinishLeavesOrigin(n: Net, w: WorkerId, mirrored: seq<UnitId>, id: UnitId)
    requires Inv(n) && Enabled(n, FinishPass(w, mirrored)) && id in n.origin
    ensures HomeSame(n, Next(n, FinishPass(w, mirrored)), id)
  {
    var ops := DeleteOps(w.1, Unlisted(n.passes[w].list, mirrored));
    DeletionsLeaveOrigin(n, Next(n, FinishPass(w, mirrored)), w.0, ops, w.1, id);
  }

  lemma SyncStepLeavesOrigin(n: Net, a: Action, id: UnitId)
    requires Inv(n) && IsSync(a) && id in n.origin
    ensures HomeSame(n, Next(n, a), id)
  {
    if Enabled(n, a) {
      match a
      case List(_, _) => StayingLeavesOrigin(n, Next(n, a), id);
      case FinishPass(w, mirrored) => FinishLeavesOrigin(n, w, mirrored, id);
      case UpsertNext(w) => UpsertNextLeavesOrigin(n, w, id);
      case Deliver(w, k) => DeliveryLeavesOrigin(n, w, k, id);
      case Repoint(_, _) => StayingLeavesOrigin(n, Next(n, a), id);
    } else {
      StayingLeavesOrigin(n, n, id);
    }
  }

  lemma UpsertingKeepsUnits(n: Net, w: WorkerId, u: RemoteUnit)
    requires Inv(n) && w.0 in n.stores
    ensures StoresGrow(n, Upserting(n, w, u))
  {
    UpsertGrows(n.stores[w.0], w.1, u);
  }

  lemma LocalStepKeepsUnits(n: Net, at: Instance, db': Db, id: UnitId)
    requires at in n.stores && Grows(n.stores[at], db', id)
    ensures StoresGrow(n, WithStore(n, at, db')) && StoresGrow(n, Remembered(WithStore(n, at, db'), at, id))
        && StoresGrow(n, n)
  {
  }

  lemma LocalStepsKeepUnits(n: Net, a: Action)
    requires Inv(n) && Enabled(n, a) && (a.Create? || a.Patch?)
    ensures StoresGrow(n, Next(n, a))
  {
    match a
    case Create(at, id, input, user) =>
      UnitsAreKnown(n, at);
      CreateGrows(n.stores[at], id, input, user);
      LocalStepKeepsUnits(n, at, CreateIn(n.stores[at], id, input, user).0, id);
    case Patch(at, id, patch, user) =>
      PatchGrows(n.stores[at], id, patch, user);
      LocalStepKeepsUnits(n, at, PatchIn(n.stores[at], id, patch, user).0, id);
  }

  lemma DeliveryKeepsUnits(n: Net, w: WorkerId, k: nat)
    requires Inv(n) && Enabled(n, Deliver(w, k)) && !n.repointed
    ensures StoresGrow(n, Next(n, Deliver(w, k)))
  {
    assert EventOk(n, n.peer[w], k);
    var u := DeliverIsUpserting(n, w, k);
    UpsertingKeepsUnits(n, w, u);
  }

  lemma StepKeepsUnits(n: Net, a: Action)
    requires Inv(n) && !n.repointed && !a.Repoint?
    ensures StoresGrow(n, Next(n, a)) && !Next(n, a).repointed
  {
    if Enabled(n, a) {
      match a
      case Create(_, _, _, _) => LocalStepsKeepUnits(n, a);
      case Patch(_, _, _, _) => LocalStepsKeepUnits(n, a);
      case Cleanup(_, _) =>
      case List(_, _) =>
      case FinishPass(w, mirrored) => PassDeletesNothing(n, w, mirrored);
      case UpsertNext(w) => UpsertingKeepsUnits(n, w, n.passes[w].list[n.passes[w].done]);
      case Deliver(w, k) => DeliveryKeepsUnits(n, w, k);
    }
  }

  /** And while no remote is repointed nothing ever disappears: a unit stays on
      every instance that has it, over the whole run. */
  lemma {:induction false} NothingDisappears(n: Net, actions: seq<Action>)
    requires Inv(n) && !n.repointed && forall i | 0 <= i < |actions| :: !actions[i].Repoint?
    ensures StoresGrow(n, Runs(n, actions))
    decreases |actions|
  {
    if actions != [] {
      NextKeepsInv(n, actions[0]);
      StepKeepsUnits(n, actions[0]);
      NothingDisappears(Next(n, actions[0]), actions[1..]);
    }
  }

  /** At its origin a unit never disappears, whatever is repointed. */
  lemma OriginsStay(n0: Net, actions: seq<Action>, id: UnitId)
    requires Init(n0) && id in Runs(n0, actions).origin
    ensures var n := Runs(n0, actions);
            var at := n.origin[id];
            at in n.stores && id in n.stores[at].units && n.stores[at].units[id].owner.None?
  {
    RunsKeepInv(n0, actions);
    var n := Runs(n0, actions);
    assert UnitOk(n, n.origin[id], id);
  }
}
