/** The manager's reconciles in every interleaving: they are started by a ticker
    and by each create, update and delete, and exclude each other, but not the
    writes; their two sections are separated by a wait for the stopped workers. */
module Lifecycle {
  import opened Manager

  datatype Change =
    | Create(remote: RemoteId, settings: Remote)
    | Update(remote: RemoteId, settings: Remote)
    | Delete(remote: RemoteId)

  datatype Caller = Ticker | Call(id: nat)

  /** How far the running reconcile is; `caller` is whose it is. */
  datatype Phase =
    | Free
    | Locked(caller: Caller)
    | Listed(caller: Caller, desired: Links)
    | Waiting(caller: Caller, desired: Links, stopped: set<WorkerId>)

  /** `calls` wrote their change and have not returned yet. `listed` records the
      last successful listing, `current` whether no listing failed after it, and
      `down` whether the ticker's loop has ended in a shutdown. */
  datatype State = State(
    stored: Remotes, pool: Pool, phase: Phase, calls: set<nat>,
    listed: Links, current: bool, down: bool)

  datatype Action =
    | Write(call: nat, change: Change)
    | Lock(caller: Caller)
    | List
    | ListFails
    | StopSection
    | StartSection
    | Exit(w: WorkerId)    // a canceled worker ends
    | StopAll              // the ticker's loop ends and forgets the workers, without the reconcile lock
    | Cancel(w: WorkerId)  // and cancels them afterwards

  /** An update of a remote that is gone by now changes no row. */
  function Changed(stored: Remotes, c: Change): Remotes {
    match c
    case Create(r, settings) => stored[r := settings]
    case Update(r, settings) => if r in stored then stored[r := settings] else stored
    case Delete(r) => stored - {r}
  }

  /** The changes that reach their reconcile: others return an error before. */
  predicate Accepted(stored: Remotes, c: Change) {
    match c
    case Create(r, _) => r !in stored
    case Update(_, _) => true
    case Delete(r) => r in stored
  }

  function Finished(calls: set<nat>, caller: Caller): set<nat> {
    if caller.Call? then calls - {caller.id} else calls
  }

  ghost predicate Next(s: State, a: Action, s': State) {
    match a
    case Write(call, change) =>
      && call !in s.calls && Accepted(s.stored, change)
      && s' == s.(stored := Changed(s.stored, change), calls := s.calls + {call})
    case Lock(caller) =>
      && s.phase.Free? && (if caller.Call? then caller.id in s.calls else !s.down)
      && s' == s.(phase := Locked(caller))
    case List =>
      && s.phase.Locked?
      && s' == s.(phase := Listed(s.phase.caller, Desired(s.stored)), listed := Desired(s.stored), current := true)
    case ListFails =>
      && s.phase.Locked?
      && s' == s.(phase := Free, calls := Finished(s.calls, s.phase.caller), current := false)
    case StopSection =>
      && s.phase.Listed? && s'.phase.Waiting?
      && Stops(s.pool, s.phase.desired, s'.pool, s'.phase.stopped)
      && s' == s.(pool := s'.pool, phase := Waiting(s.phase.caller, s.phase.desired, s'.phase.stopped))
    case StartSection =>
      && s.phase.Waiting? && s.phase.stopped !! s.pool.alive.Keys
      && Starts(s.pool, s.phase.desired, s'.pool)
      && s' == s.(pool := s'.pool, phase := Free, calls := Finished(s.calls, s.phase.caller))
    case Exit(w) =>
      && w in s.pool.alive && s.pool.alive[w].canceled
      && s' == s.(pool := Ended(s.pool, {w}))
    case StopAll =>
      && !s.down && (!s.phase.Free? ==> s.phase.caller.Call?)
      && s' == s.(pool := s.pool.(workers := map[]), down := true)
    case Cancel(w) =>
      && w in s.pool.alive && !Registered(s.pool, w)
      && s' == s.(pool := s.pool.(alive := s.pool.alive[w := s.pool.alive[w].(canceled := true)]))
  }

  ghost predicate Run(states: seq<State>, actions: seq<Action>) {
    && |states| == |actions| + 1
    && forall i | 0 <= i < |actions| :: Next(states[i], actions[i], states[i + 1])
  }

  /** Before the first reconcile: any stored remotes, no workers. */
  predicate Init(s: State) {
    s.pool == NO_WORKERS && s.phase.Free? && s.calls == {} && s.listed == map[] && !s.current && !s.down
  }

  // ---------- The invariant ----------

  /** A worker is registered, or stopped by the running reconcile. */
  predicate Known(s: State, w: WorkerId) {
    Registered(s.pool, w) || (s.phase.Waiting? && w in s.phase.stopped && w in s.pool.alive && s.pool.alive[w].canceled)
  }

  predicate AliveOk(s: State) {
    forall w | w in s.pool.alive :: Known(s, w)
  }

  predicate StoppedOk(s: State) {
    s.phase.Waiting? ==>
      && (forall w | w in s.phase.stopped :: w.remote !in s.pool.workers)
      && (forall v, w | v in s.phase.stopped && w in s.phase.stopped && v.remote == w.remote :: v == w)
  }

  predicate PhaseOk(s: State) {
    match s.phase
    case Free => Matches(s.pool, s.listed)
    case Locked(_) => Matches(s.pool, s.listed)
    case Listed(_, desired) => desired == s.listed
    case Waiting(_, desired, _) => desired == s.listed && Serves(s.pool, s.listed)
  }

  /** The calls whose own listing is still to come. */
  function Owed(s: State): set<nat> {
    if s.phase.Listed? || s.phase.Waiting? then Finished(s.calls, s.phase.caller) else s.calls
  }

  predicate ListingOk(s: State) {
    && (!s.phase.Free? && s.phase.caller.Call? ==> s.phase.caller.id in s.calls)
    && (s.current && Owed(s) == {} ==> s.listed == Desired(s.stored))
  }

  predicate Inv(s: State) {
    PoolOk(s.pool) && AliveOk(s) && StoppedOk(s) && PhaseOk(s) && ListingOk(s)
  }

  lemma StopSectionKeeps(s: State, s': State)
    requires Inv(s) && Next(s, StopSection, s')
    ensures Inv(s')
  {
    StopIsOk(s.pool, s.phase.desired, s'.pool, s'.phase.stopped);
    forall w | w in s'.pool.alive ensures Known(s', w) {
      assert Known(s, w);
    }
  }

  lemma StartSectionKeeps(s: State, s': State)
    requires Inv(s) && Next(s, StartSection, s')
    ensures Inv(s')
  {
    StartIsOk(s.pool, s.phase.desired, s'.pool);
    forall w | w in s'.pool.alive ensures Known(s', w) {
      if w in s.pool.alive {
        assert Known(s, w);
      }
    }
  }

  lemma ExitKeeps(s: State, w: WorkerId, s': State)
    requires Inv(s) && Next(s, Exit(w), s')
    ensures Inv(s')
  {
    assert Known(s, w);
    assert !Registered(s.pool, w);
    forall v | v in s'.pool.alive ensures Known(s', v) {
      assert Known(s, v);
    }
  }

  lemma CancelKeeps(s: State, w: WorkerId, s': State)
    requires Inv(s) && Next(s, Cancel(w), s')
    ensures s' == s
  {
    assert Known(s, w);
  }

  lemma WriteKeeps(s: State, call: nat, change: Change, s': State)
    requires Inv(s) && Next(s, Write(call, change), s')
    ensures Inv(s')
  {
    assert call in Owed(s');
    forall w | w in s'.pool.alive ensures Known(s', w) {
      assert Known(s, w);
    }
  }

  lemma ListingKeeps(s: State, a: Action, s': State)
    requires Inv(s) && Next(s, a, s') && (a.Lock? || a.List? || a.ListFails?)
    ensures Inv(s')
  {
    forall w | w in s'.pool.alive ensures Known(s', w) {
      assert Known(s, w);
    }
  }

  lemma NextKeepsInv(s: State, a: Action, s': State)
    requires Inv(s) && Next(s, a, s') && a != StopAll
    ensures Inv(s')
  {
    match a
    case Write(call, change) => WriteKeeps(s, call, change, s');
    case StopSection => StopSectionKeeps(s, s');
    case StartSection => StartSectionKeeps(s, s');
    case Exit(w) => ExitKeeps(s, w, s');
    case Cancel(w) => CancelKeeps(s, w, s');
    case _ => ListingKeeps(s, a, s');
  }

  lemma {:induction false} RunKeepsInv(states: seq<State>, actions: seq<Action>, n: nat)
    requires Run(states, actions) && Init(states[0]) && StopAll !in actions && n < |states|
    ensures Inv(states[n])
  {
    if n > 0 {
      RunKeepsInv(states, actions, n - 1);
      assert actions[n - 1] in actions;
      NextKeepsInv(states[n - 1], actions[n - 1], states[n]);
    }
  }

  // ---------- What it means ----------

  predicate OnePerRemote(pool: Pool) {
    forall v, w | v in pool.alive && w in pool.alive && v.remote == w.remote :: v == w
  }

  /** At no time before shutdown are two workers of one remote running, canceled
      or not. */
  lemma AtMostOneWorker(states: seq<State>, actions: seq<Action>, n: nat)
    requires Run(states, actions) && Init(states[0]) && StopAll !in actions && n < |states|
    ensures OnePerRemote(states[n].pool)
  {
    RunKeepsInv(states, actions, n);
    var s := states[n];
    forall v, w | v in s.pool.alive && w in s.pool.alive && v.remote == w.remote ensures v == w {
      assert Known(s, v) && Known(s, w);
    }
  }

  /** When no call is in progress and the last listing succeeded, the running
      workers are exactly those of the enabled stored remotes, with the stored
      settings, whatever the order in which the reconciles came. */
  lemma ReconcileAgrees(states: seq<State>, actions: seq<Action>, n: nat, r: RemoteId)
    requires Run(states, actions) && Init(states[0]) && StopAll !in actions && n < |states|
    requires states[n].phase.Free? && states[n].calls == {} && states[n].current
    ensures var s := states[n];
            && ((exists w | w in s.pool.alive :: w.remote == r) <==> r in s.stored && s.stored[r].enabled)
            && (forall w | w in s.pool.alive && w.remote == r ::
                  Registered(s.pool, w) && s.pool.alive[w] == Worker(s.stored[r].link, false))
  {
    RunKeepsInv(states, actions, n);
    var s := states[n];
    assert s.listed == Desired(s.stored);
    forall w | w in s.pool.alive && w.remote == r
        ensures Registered(s.pool, w) && s.pool.alive[w] == Worker(s.stored[r].link, false) {
      assert Known(s, w);
    }
    if r in s.pool.workers {
      assert s.pool.workers[r] in s.pool.alive && s.pool.workers[r].remote == r;
    }
  }

  // ---------- What a worker runs with ----------

  /** A running worker keeps its URL and interval through every step, and a stopped
      one stays stopped; a new one is started with its remote's listed settings. */
  lemma NextKeepsSettings(s: State, a: Action, s': State)
    requires PoolOk(s.pool) && Next(s, a, s')
    ensures forall w | w in s.pool.alive && w in s'.pool.alive :: SameConnection(s.pool, s'.pool, w)
    ensures forall w | w in s'.pool.alive && w !in s.pool.alive ::
              a.StartSection? && StartedNow(s.pool, s.phase.desired, s'.pool, w)
  {
    if a.StopSection? {
      StopsExactly(s.pool, s.phase.desired, s'.pool, s'.phase.stopped);
    } else if a.StartSection? {
      StartsExactly(s.pool, s.phase.desired, s'.pool);
    }
  }

  /** A worker that has ended does not come back. */
  lemma RunsSince(states: seq<State>, actions: seq<Action>, i: nat, n: nat, w: WorkerId)
    requires Run(states, actions) && Init(states[0]) && i <= n < |actions|
    requires w in states[i].pool.alive && w in states[n + 1].pool.alive
    ensures SameConnection(states[n].pool, states[n + 1].pool, w)
  {
    RunKeepsPool(states, actions, i);
    RunKeepsPool(states, actions, n);
    NextGrows(states, actions, i, n);
    NextKeepsSettings(states[n], actions[n], states[n + 1]);
  }

  /** Over every run, shutdowns included: a worker has the URL and the interval it
      was started with for as long as it runs. A change of either takes a new one. */
  lemma {:induction false} RunKeepsSettings(states: seq<State>, actions: seq<Action>, i: nat, n: nat, w: WorkerId)
    requires Run(states, actions) && Init(states[0]) && i <= n < |states|
    requires w in states[i].pool.alive && w in states[n].pool.alive
    ensures states[n].pool.alive[w].link.url == states[i].pool.alive[w].link.url
    ensures states[n].pool.alive[w].link.interval == states[i].pool.alive[w].link.interval
  {
    if i < n {
      RunsSince(states, actions, i, n - 1, w);
      RunKeepsSettings(states, actions, i, n - 1, w);
    }
  }

  lemma {:induction false} NextGrows(states: seq<State>, actions: seq<Action>, i: nat, n: nat)
    requires Run(states, actions) && i <= n < |states|
    ensures states[i].pool.next <= states[n].pool.next
  {
    if i < n {
      NextGrows(states, actions, i, n - 1);
      assert Next(states[n - 1], actions[n - 1], states[n]);
    }
  }

  // ---------- The last write ----------

  predicate Writes(a: Action, r: RemoteId) {
    a.Write? && a.change.remote == r
  }

  lemma {:induction false} UnwrittenStays(states: seq<State>, actions: seq<Action>, i: nat, n: nat, r: RemoteId)
    requires Run(states, actions) && i <= n < |states|
    requires forall k | i <= k < n :: !Writes(actions[k], r)
    ensures r in states[n].stored <==> r in states[i].stored
    ensures r in states[n].stored ==> states[n].stored[r] == states[i].stored[r]
  {
    if i < n {
      UnwrittenStays(states, actions, i, n - 1, r);
      assert Next(states[n - 1], actions[n - 1], states[n]) && !Writes(actions[n - 1], r);
    }
  }

  /** The last write about a remote decides: once no call is in progress and the
      last listing succeeded, a deleted or disabled remote has no worker, canceled
      or not, and any other one that was there has one with the settings written. */
  lemma LastWriteDecides(states: seq<State>, actions: seq<Action>, i: nat, n: nat)
    requires Run(states, actions) && Init(states[0]) && StopAll !in actions && i < n < |states|
    requires actions[i].Write? && forall k | i < k < n :: !Writes(actions[k], actions[i].change.remote)
    requires states[n].phase.Free? && states[n].calls == {} && states[n].current
    ensures var change, s := actions[i].change, states[n];
            var wanted := !change.Delete? && change.settings.enabled
                && (change.Update? ==> change.remote in states[i].stored);
            && ((exists w | w in s.pool.alive :: w.remote == change.remote) <==> wanted)
            && forall w | w in s.pool.alive && w.remote == change.remote :: s.pool.alive[w].link == change.settings.link
  {
    var change := actions[i].change;
    assert Next(states[i], actions[i], states[i + 1]);
    UnwrittenStays(states, actions, i + 1, n, change.remote);
    ReconcileAgrees(states, actions, n, change.remote);
  }

  // ---------- Shutdown ----------

  /** The second section would start a worker for a remote whose worker is still
      running, but forgotten. */
  predicate Forgets(s: State, a: Action) {
    a.StartSection? && s.phase.Waiting? && exists w | w in s.pool.alive ::
        w.remote in s.phase.desired && w.remote !in s.pool.workers
  }

  lemma StartKeepsPool(p: Pool, desired: Links, q: Pool)
    requires PoolOk(p) && Starts(p, desired, q)
    ensures PoolOk(q)
  {
  }

  lemma NextKeepsPool(s: State, a: Action, s': State)
    requires PoolOk(s.pool) && Next(s, a, s')
    ensures PoolOk(s'.pool)
  {
    if a.StopSection? {
      StopIsOk(s.pool, s.phase.desired, s'.pool, s'.phase.stopped);
    } else if a.StartSection? {
      StartKeepsPool(s.pool, s.phase.desired, s'.pool);
    }
  }

  /** Starting keeps one worker per remote exactly if no desired remote's worker
      was forgotten. */
  lemma StartsApartIff(p: Pool, desired: Links, q: Pool)
    requires PoolOk(p) && Starts(p, desired, q) && OnePerRemote(p)
    ensures OnePerRemote(q) <==> forall w | w in p.alive && w.remote in desired :: w.remote in p.workers
  {
    if w :| w in p.alive && w.remote in desired && w.remote !in p.workers {
      var started := WorkerId(w.remote, p.next);
      assert IsNew(p, desired, {}, started);
      assert w in q.alive && started in q.alive;
    }
  }

  lemma NextApartIff(s: State, a: Action, s': State)
    requires PoolOk(s.pool) && OnePerRemote(s.pool) && Next(s, a, s')
    ensures OnePerRemote(s'.pool) <==> !Forgets(s, a)
  {
    if a.StartSection? {
      StartsApartIff(s.pool, s.phase.desired, s'.pool);
    } else {
      assert s'.pool.alive.Keys <= s.pool.alive.Keys;
    }
  }

  lemma {:induction false} RunKeepsPool(states: seq<State>, actions: seq<Action>, n: nat)
    requires Run(states, actions) && Init(states[0]) && n < |states|
    ensures PoolOk(states[n].pool)
  {
    if n > 0 {
      RunKeepsPool(states, actions, n - 1);
      NextKeepsPool(states[n - 1], actions[n - 1], states[n]);
    }
  }

  lemma {:induction false} ApartUntil(states: seq<State>, actions: seq<Action>, n: nat)
    requires Run(states, actions) && Init(states[0]) && n < |states|
    requires forall i | 0 <= i < n :: !Forgets(states[i], actions[i])
    ensures OnePerRemote(states[n].pool)
  {
    if n > 0 {
      ApartUntil(states, actions, n - 1);
      RunKeepsPool(states, actions, n - 1);
      NextApartIff(states[n - 1], actions[n - 1], states[n]);
    }
  }

  /** Over every run, shutdowns included: at no time are two workers of one
      remote running exactly if no second section meets a forgotten worker of a
      remote it is to start. */
  lemma AlwaysApartIff(states: seq<State>, actions: seq<Action>)
    requires Run(states, actions) && Init(states[0])
    ensures (forall n | 0 <= n < |states| :: OnePerRemote(states[n].pool)) <==>
              forall n | 0 <= n < |actions| :: !Forgets(states[n], actions[n])
  {
    if forall n | 0 <= n < |actions| :: !Forgets(states[n], actions[n]) {
      forall n | 0 <= n < |states| ensures OnePerRemote(states[n].pool) {
        ApartUntil(states, actions, n);
      }
    } else {
      var n :| 0 <= n < |actions| && Forgets(states[n], actions[n]);
      if OnePerRemote(states[n].pool) {
        RunKeepsPool(states, actions, n);
        NextApartIff(states[n], actions[n], states[n + 1]);
        assert !OnePerRemote(states[n + 1].pool);
      }
    }
  }

  const LINK := Link("north", "https://north.example.com", 60)
  const NORTH := Remote(LINK, true)
  const STORED: Remotes := map[7 := NORTH]
  const OLD := WorkerId(7, 0)
  const NEW := WorkerId(7, 1)
  const ONE := Pool(map[7 := OLD], map[OLD := Worker(LINK, false)], 1)
  const FORGOTTEN := Pool(map[], map[OLD := Worker(LINK, false)], 1)
  const TWO := Pool(map[7 := NEW], map[OLD := Worker(LINK, false), NEW := Worker(LINK, false)], 2)
  const LINKS: Links := map[7 := LINK]

  /** The ticker's first reconcile, then an update's with a shutdown in between. */
  const S0 := State(STORED, NO_WORKERS, Free, {}, map[], false, false)
  const S1 := State(STORED, NO_WORKERS, Locked(Ticker), {}, map[], false, false)
  const S2 := State(STORED, NO_WORKERS, Listed(Ticker, LINKS), {}, LINKS, true, false)
  const S3 := State(STORED, NO_WORKERS, Waiting(Ticker, LINKS, {}), {}, LINKS, true, false)
  const S4 := State(STORED, ONE, Free, {}, LINKS, true, false)
  const S5 := State(STORED, ONE, Free, {0}, LINKS, true, false)
  const S6 := State(STORED, ONE, Locked(Call(0)), {0}, LINKS, true, false)
  const S7 := State(STORED, ONE, Listed(Call(0), LINKS), {0}, LINKS, true, false)
  const S8 := State(STORED, ONE, Waiting(Call(0), LINKS, {}), {0}, LINKS, true, false)
  const S9 := State(STORED, FORGOTTEN, Waiting(Call(0), LINKS, {}), {0}, LINKS, true, true)
  const S10 := State(STORED, TWO, Free, {}, LINKS, true, true)

  lemma StoredLinks()
    ensures Desired(STORED) == LINKS
  {
  }

  lemma OneMore(states: seq<State>, actions: seq<Action>, a: Action, s': State)
    requires Run(states, actions) && Next(states[|actions|], a, s')
    ensures Run(states + [s'], actions + [a])
  {
    var states', actions' := states + [s'], actions + [a];
    forall i | 0 <= i < |actions'| ensures Next(states'[i], actions'[i], states'[i + 1]) {
      if i < |actions| {
        assert Next(states[i], actions[i], states[i + 1]);
      }
    }
  }

  lemma FirstReconcile() returns (states: seq<State>, actions: seq<Action>)
    ensures Run(states, actions) && states[0] == S0 && states[|actions|] == S4
  {
    StoredLinks();
    states, actions := [S0], [];
    OneMore(states, actions, Lock(Ticker), S1);
    states, actions := states + [S1], actions + [Lock(Ticker)];
    OneMore(states, actions, List, S2);
    states, actions := states + [S2], actions + [List];
    OneMore(states, actions, StopSection, S3);
    states, actions := states + [S3], actions + [StopSection];
    OneMore(states, actions, StartSection, S4);
    states, actions := states + [S4], actions + [StartSection];
  }

  lemma SecondReconcile() returns (states: seq<State>, actions: seq<Action>)
    ensures Run(states, actions) && states[0] == S0 && states[|actions|] == S8
  {
    StoredLinks();
    var update := Write(0, Update(7, NORTH));
    states, actions := FirstReconcile();
    OneMore(states, actions, update, S5);
    states, actions := states + [S5], actions + [update];
    OneMore(states, actions, Lock(Call(0)), S6);
    states, actions := states + [S6], actions + [Lock(Call(0))];
    OneMore(states, actions, List, S7);
    states, actions := states + [S7], actions + [List];
    OneMore(states, actions, StopSection, S8);
    states, actions := states + [S8], actions + [StopSection];
  }

  /** It can happen: shutdown does not wait for a call's running reconcile, which
      then starts a second worker beside the forgotten one. */
  lemma ShutdownCanOverlap() returns (states: seq<State>, actions: seq<Action>)
    ensures Run(states, actions) && Init(states[0]) && !OnePerRemote(states[|actions|].pool)
  {
    states, actions := SecondReconcile();
    OneMore(states, actions, StopAll, S9);
    states, actions := states + [S9], actions + [StopAll];
    OneMore(states, actions, StartSection, S10);
    states, actions := states + [S10], actions + [StartSection];
    assert OLD in TWO.alive && NEW in TWO.alive;
  }

  /** A shutdown between the sections of a call's reconcile, with no worker ended
      before the second, doubles exactly the workers it meant to keep: a remote
      has two afterwards exactly if its worker was registered. */
  lemma ShutdownDoublesIff(s: State, s1: State, s2: State, r: RemoteId)
    requires Inv(s) && s.phase.Waiting?
    requires Next(s, StopAll, s1) && Next(s1, StartSection, s2)
    ensures (exists v, w | v in s2.pool.alive && w in s2.pool.alive :: v.remote == r == w.remote && v != w) <==>
        r in s.pool.workers
  {
    if r in s.pool.workers {
      var v, w := s.pool.workers[r], WorkerId(r, s.pool.next);
      assert r in s.phase.desired && IsNew(s1.pool, s1.phase.desired, {}, w);
      assert v in s2.pool.alive && w in s2.pool.alive;
    } else {
      forall v | v in s.pool.alive ensures v.remote != r {
        assert Known(s, v);
      }
    }
  }
}
