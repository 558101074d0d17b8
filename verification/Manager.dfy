/** The manager's workers, one per enabled remote, and one reconcile that brings
    them in line with the stored remotes. */
module Manager {
  import Store

  type RemoteId = Store.RemoteId

  /** What a worker connects with, and the name it logs. */
  datatype Link = Link(name: string, url: string, interval: int)

  datatype Remote = Remote(link: Link, enabled: bool)

  type Remotes = map<RemoteId, Remote>
  type Links = map<RemoteId, Link>

  /** Workers of one remote are told apart by the reconcile that started them. */
  datatype WorkerId = WorkerId(remote: RemoteId, generation: nat)

  /** A worker that has not ended, and whether it was told to stop. */
  datatype Worker = Worker(link: Link, canceled: bool)

  /** The registered workers, and every worker that is still running. */
  datatype Pool = Pool(workers: map<RemoteId, WorkerId>, alive: map<WorkerId, Worker>, next: nat)

  const NO_WORKERS := Pool(map[], map[], 0)

  function Desired(stored: Remotes): Links {
    map r | r in stored && stored[r].enabled :: stored[r].link
  }

  predicate SameLink(a: Link, b: Link) {
    a.url == b.url && a.interval == b.interval
  }

  /** The remote's worker goes on: nothing it connects with changed. */
  predicate Keeps(pool: Pool, desired: Links, r: RemoteId) {
    && r in pool.workers && pool.workers[r] in pool.alive && r in desired
    && SameLink(desired[r], pool.alive[pool.workers[r]].link)
  }

  predicate Registered(pool: Pool, w: WorkerId) {
    w.remote in pool.workers && pool.workers[w.remote] == w
  }

  /** What the first section does about one registered worker. */
  function StopOne(pool: Pool, desired: Links, r: RemoteId): Pool
    requires r in pool.workers && pool.workers[r] in pool.alive
  {
    var w := pool.workers[r];
    if Keeps(pool, desired, r) then pool.(alive := pool.alive[w := pool.alive[w].(link := desired[r])])
    else pool.(workers := pool.workers - {r}, alive := pool.alive[w := pool.alive[w].(canceled := true)])
  }

  /** A worker after the first section got to its remote. */
  function Told(pool: Pool, desired: Links, w: WorkerId): Worker
    requires w in pool.alive
  {
    if !Registered(pool, w) then pool.alive[w]
    else if Keeps(pool, desired, w.remote) then pool.alive[w].(link := desired[w.remote])
    else pool.alive[w].(canceled := true)
  }

  /** The first section, with these remotes still to come: the workers not to be
      kept are canceled and no longer registered. */
  ghost predicate StopsAllBut(p: Pool, desired: Links, rest: set<RemoteId>, q: Pool, stopped: set<WorkerId>) {
    && q.next == p.next && q.alive.Keys == p.alive.Keys
    && (forall r :: r in q.workers <==> r in p.workers && (r !in rest ==> Keeps(p, desired, r)))
    && (forall r | r in q.workers :: q.workers[r] == p.workers[r])
    && (forall w | w in q.alive :: q.alive[w] == if w.remote in rest then p.alive[w] else Told(p, desired, w))
    && (forall w :: w in stopped <==> Registered(p, w) && w.remote !in rest && !Keeps(p, desired, w.remote))
  }

  ghost predicate Stops(p: Pool, desired: Links, q: Pool, stopped: set<WorkerId>) {
    StopsAllBut(p, desired, {}, q, stopped)
  }

  function StartOne(pool: Pool, desired: Links, r: RemoteId): Pool
    requires r in desired
  {
    var w := WorkerId(r, pool.next);
    if r in pool.workers then pool
    else pool.(workers := pool.workers[r := w], alive := pool.alive[w := Worker(desired[r], false)])
  }

  /** The second section, with these remotes still to come: each other one that had
      no worker has a new one. */
  ghost predicate StartsAllBut(p: Pool, desired: Links, rest: set<RemoteId>, q: Pool) {
    && q.next == p.next
    && (forall r :: r in q.workers <==> r in p.workers || (r in desired && r !in rest))
    && (forall r | r in q.workers :: q.workers[r] == if r in p.workers then p.workers[r] else WorkerId(r, p.next))
    && (forall w :: w in q.alive <==> w in p.alive || IsNew(p, desired, rest, w))
    && (forall w | w in q.alive :: q.alive[w] == if IsNew(p, desired, rest, w) then Worker(desired[w.remote], false)
        else p.alive[w])
  }

  predicate IsNew(p: Pool, desired: Links, rest: set<RemoteId>, w: WorkerId) {
    w.remote in desired && w.remote !in rest && w.remote !in p.workers && w.generation == p.next
  }

  ghost predicate Starts(p: Pool, desired: Links, q: Pool) {
    q.next == p.next + 1 && StartsAllBut(p, desired, {}, q.(next := p.next))
  }

  function Ended(pool: Pool, gone: set<WorkerId>): Pool {
    pool.(alive := pool.alive - gone)
  }

  /** Registered workers are running, and known under their own remote. */
  predicate PoolOk(pool: Pool) {
    && (forall r | r in pool.workers ::
        pool.workers[r].remote == r && pool.workers[r] in pool.alive && !pool.alive[pool.workers[r]].canceled)
    && (forall w | w in pool.alive :: w.generation < pool.next)
  }

  /** Each registered worker is one of these remotes' and has its settings. */
  predicate Serves(pool: Pool, desired: Links) {
    forall r | r in pool.workers ::
        pool.workers[r] in pool.alive && r in desired && pool.alive[pool.workers[r]].link == desired[r]
  }

  /** The registered workers are exactly those of these remotes. */
  predicate Matches(pool: Pool, desired: Links) {
    Serves(pool, desired) && pool.workers.Keys == desired.Keys
  }

  lemma KeepOneMore(p: Pool, desired: Links, rest: set<RemoteId>, q: Pool, stopped: set<WorkerId>, r: RemoteId)
    requires PoolOk(p) && StopsAllBut(p, desired, rest, q, stopped) && r in p.workers && r in rest
        && Keeps(p, desired, r)
    ensures Keeps(q, desired, r) && StopsAllBut(p, desired, rest - {r}, StopOne(q, desired, r), stopped)
  {
    forall w | w in q.alive && w.remote == r && w != p.workers[r] ensures Told(p, desired, w) == p.alive[w] {
    }
  }

  lemma CancelOneMore(p: Pool, desired: Links, rest: set<RemoteId>, q: Pool, stopped: set<WorkerId>, r: RemoteId)
    requires PoolOk(p) && StopsAllBut(p, desired, rest, q, stopped) && r in p.workers && r in rest
        && !Keeps(p, desired, r)
    ensures r in q.workers && q.workers[r] in q.alive && !Keeps(q, desired, r)
    ensures StopsAllBut(p, desired, rest - {r}, StopOne(q, desired, r), stopped + {q.workers[r]})
  {
    assert q.workers[r] == p.workers[r] && q.alive[q.workers[r]] == p.alive[p.workers[r]];
  }

  lemma StopOneMore(p: Pool, desired: Links, rest: set<RemoteId>, q: Pool, stopped: set<WorkerId>, r: RemoteId)
    requires PoolOk(p) && StopsAllBut(p, desired, rest, q, stopped) && r in p.workers && r in rest
    ensures r in q.workers && q.workers[r] in q.alive && (Keeps(q, desired, r) <==> Keeps(p, desired, r))
    ensures StopsAllBut(p, desired, rest - {r}, StopOne(q, desired, r), if Keeps(q, desired, r) then stopped
        else stopped + {q.workers[r]})
  {
    if Keeps(p, desired, r) {
      KeepOneMore(p, desired, rest, q, stopped, r);
    } else {
      CancelOneMore(p, desired, rest, q, stopped, r);
    }
  }

  lemma StartOneMore(p: Pool, desired: Links, rest: set<RemoteId>, q: Pool, r: RemoteId)
    requires StartsAllBut(p, desired, rest, q) && r in desired && r in rest
    ensures StartsAllBut(p, desired, rest - {r}, StartOne(q, desired, r))
  {
  }

  lemma StopIsOk(p: Pool, desired: Links, q: Pool, stopped: set<WorkerId>)
    requires PoolOk(p) && Stops(p, desired, q, stopped)
    ensures PoolOk(q) && Serves(q, desired)
    ensures forall w | w in stopped :: w.remote !in q.workers && w in q.alive && q.alive[w].canceled
    ensures forall v, w | v in stopped && w in stopped && v.remote == w.remote :: v == w
  {
  }

  /** The first section keeps exactly the workers whose remote is still wanted at
      the same URL and interval; those run on with what they connected with, and
      every other registered one is canceled. */
  lemma StopsExactly(p: Pool, desired: Links, q: Pool, stopped: set<WorkerId>)
    requires PoolOk(p) && Stops(p, desired, q, stopped)
    ensures q.workers.Keys <= p.workers.Keys
    ensures forall r | r in p.workers :: Reconnects(p, desired, r) <==> r !in q.workers
    ensures forall r | r in p.workers :: Reconnects(p, desired, r) <==> p.workers[r] in stopped
    ensures forall r | r in q.workers :: q.workers[r] == p.workers[r]
    ensures forall w | w in q.alive :: SameConnection(p, q, w) && (w in stopped ==> q.alive[w].canceled)
  {
    assert forall r | r in p.workers :: Registered(p, p.workers[r]);
  }

  /** The remote of a registered worker is gone, disabled, or to be connected to
      differently. */
  predicate Reconnects(pool: Pool, desired: Links, r: RemoteId)
    requires r in pool.workers && pool.workers[r] in pool.alive
  {
    var link := pool.alive[pool.workers[r]].link;
    r !in desired || desired[r].url != link.url || desired[r].interval != link.interval
  }

  /** The worker runs in both with the URL and interval it connected with. */
  predicate SameConnection(p: Pool, q: Pool, w: WorkerId) {
    && w in p.alive && w in q.alive && q.alive[w].link.url == p.alive[w].link.url
    && q.alive[w].link.interval == p.alive[w].link.interval
    && (p.alive[w].canceled ==> q.alive[w].canceled)
  }

  /** The workers before and after the second section. */
  lemma StartsExactly(p: Pool, desired: Links, q: Pool)
    requires PoolOk(p) && Starts(p, desired, q)
    ensures forall r | r in p.workers :: r in q.workers && q.workers[r] == p.workers[r]
    ensures forall r | r in q.workers && r !in p.workers :: r in desired && q.workers[r] !in p.alive
    ensures forall w | w in p.alive :: SameConnection(p, q, w)
    ensures forall w | w in q.alive && w !in p.alive :: StartedNow(p, desired, q, w)
    ensures forall r | r in q.workers :: r in p.workers || q.workers[r].generation == p.next
  {
  }

  /** A new worker has its remote's listed settings. */
  predicate StartedNow(p: Pool, desired: Links, q: Pool, w: WorkerId) {
    w in q.alive && w.generation == p.next && w.remote in desired && q.alive[w] == Worker(desired[w.remote], false)
  }

  lemma RunningAfterwards(p: Pool, desired: Links, q: Pool, stopped: set<WorkerId>, s: Pool)
    requires PoolOk(p) && Stops(p, desired, q, stopped) && Starts(Ended(q, stopped), desired, s)
    requires PoolOk(Ended(q, stopped))
    ensures forall w | w in s.alive && w in p.alive :: SameConnection(p, s, w)
    ensures forall w | w in s.alive && w !in p.alive :: StartedNow(p, desired, s, w)
  {
    StopsExactly(p, desired, q, stopped);
    StartsExactly(Ended(q, stopped), desired, s);
  }

  /** A whole reconcile: a worker stays exactly if its remote is still wanted at the
      same URL and interval, and otherwise it has ended; a new one has the listed
      settings. */
  lemma ReconciledExactly(p: Pool, desired: Links, q: Pool, stopped: set<WorkerId>, s: Pool)
    requires PoolOk(p) && Stops(p, desired, q, stopped) && Starts(Ended(q, stopped), desired, s)
    requires PoolOk(Ended(q, stopped))
    ensures forall r | r in p.workers ::
              if Reconnects(p, desired, r)
              then p.workers[r] !in s.alive && (r in s.workers ==> s.workers[r] != p.workers[r])
              else r in s.workers && s.workers[r] == p.workers[r]
    ensures forall w | w in s.alive && w in p.alive :: SameConnection(p, s, w)
    ensures forall w | w in s.alive && w !in p.alive :: StartedNow(p, desired, s, w)
  {
    RunningAfterwards(p, desired, q, stopped, s);
    StopsExactly(p, desired, q, stopped);
    StartsExactly(Ended(q, stopped), desired, s);
  }

  lemma EndedIsOk(pool: Pool, desired: Links, gone: set<WorkerId>)
    requires PoolOk(pool) && Serves(pool, desired) && forall w | w in gone :: w.remote !in pool.workers
    ensures PoolOk(Ended(pool, gone)) && Serves(Ended(pool, gone), desired)
  {
  }

  lemma StartIsOk(p: Pool, desired: Links, q: Pool)
    requires PoolOk(p) && Serves(p, desired) && Starts(p, desired, q)
    ensures PoolOk(q) && Matches(q, desired)
  {
  }

  class Manager {
    var stored: Remotes
    var workers: map<RemoteId, WorkerId>
    var alive: map<WorkerId, Worker>
    var next: nat

    function State(): Pool
      reads this
    {
      Pool(workers, alive, next)
    }

    constructor ()
      ensures stored == map[] && State() == NO_WORKERS
    {
      stored, workers, alive, next := map[], map[], map[], 0;
    }

    /** One reconcile without interruption: a failed listing changes nothing;
        otherwise the workers are the enabled remotes', and none of those whose
        URL and interval are as they were is restarted. */
    method Reconcile(listed: bool)
      requires PoolOk(State())
      modifies this`workers, this`alive, this`next
      ensures PoolOk(State())
      ensures !listed ==> State() == old(State())
      ensures listed ==> Matches(State(), Desired(stored))
      ensures listed ==> forall r | Keeps(old(State()), Desired(stored), r) ::
          r in workers && workers[r] == old(workers)[r]
      ensures listed ==> forall r | r in old(workers) ::
                if Reconnects(old(State()), Desired(stored), r)
                then old(workers)[r] !in alive && (r in workers ==> workers[r] != old(workers)[r])
                else r in workers && workers[r] == old(workers)[r]
      ensures forall w | w in alive && w in old(alive) :: SameConnection(old(State()), State(), w)
      ensures forall w | w in alive && w !in old(alive) :: StartedNow(old(State()), Desired(stored), State(), w)
    {
      if !listed {
        return;
      }
      var desired := EnabledRemotes();
      ghost var before := State();
      var stopped := StopSection(desired);
      StopIsOk(before, desired, State(), stopped);
      EndedIsOk(State(), desired, stopped);
      ghost var stopping := State();
      alive := alive - stopped;  // waits until each of them has ended
      ghost var between := State();
      StartSection(desired);
      StartIsOk(between, desired, State());
      ReconciledExactly(before, desired, stopping, stopped, State());
    }

    method EnabledRemotes() returns (desired: Links)
      ensures desired == Desired(stored)
    {
      desired := map[];
      var rest := stored.Keys;
      while rest != {}
        invariant rest <= stored.Keys
        invariant forall r :: r in desired <==> r in stored && r !in rest && stored[r].enabled
        invariant forall r | r in desired :: desired[r] == stored[r].link
        decreases |rest|
      {
        var r :| r in rest;
        rest := rest - {r};
        if stored[r].enabled {
          desired := desired[r := stored[r].link];
        }
      }
      assert desired == Desired(stored);
    }

    method StopSection(desired: Links) returns (stopped: set<WorkerId>)
      requires PoolOk(State())
      modifies this`workers, this`alive
      ensures Stops(old(State()), desired, State(), stopped)
    {
      ghost var before := State();
      var rest := workers.Keys;
      stopped := {};
      while rest != {}
        invariant rest <= before.workers.Keys
        invariant StopsAllBut(before, desired, rest, State(), stopped)
        decreases |rest|
      {
        var r :| r in rest;
        StopOneMore(before, desired, rest, State(), stopped, r);
        var w := workers[r];
        rest := rest - {r};
        var kept := KeepOrStop(desired, r);
        if !kept {
          stopped := stopped + {w};
        }
      }
    }

    method KeepOrStop(desired: Links, r: RemoteId) returns (kept: bool)
      requires r in workers && workers[r] in alive
      modifies this`workers, this`alive
      ensures State() == StopOne(old(State()), desired, r) && kept == Keeps(old(State()), desired, r)
    {
      var w := workers[r];
      kept := r in desired && SameLink(desired[r], alive[w].link);
      if kept {
        alive := alive[w := alive[w].(link := alive[w].link.(name := desired[r].name))];
      } else {
        alive := alive[w := alive[w].(canceled := true)];
        workers := workers - {r};
      }
    }

    method StartSection(desired: Links)
      modifies this`workers, this`alive, this`next
      ensures Starts(old(State()), desired, State())
    {
      ghost var before := State();
      var rest := desired.Keys;
      while rest != {}
        invariant rest <= desired.Keys
        invariant StartsAllBut(before, desired, rest, State())
        decreases |rest|
      {
        var r :| r in rest;
        StartOneMore(before, desired, rest, State(), r);
        rest := rest - {r};
        if r !in workers {
          StartLocked(desired, r);
        }
      }
      next := next + 1;
    }

    method StartLocked(desired: Links, r: RemoteId)
      requires r in desired && r !in workers
      modifies this`workers, this`alive
      ensures State() == StartOne(old(State()), desired, r)
    {
      var w := WorkerId(r, next);
      workers := workers[r := w];
      alive := alive[w := Worker(desired[r], false)];
    }
  }
}
