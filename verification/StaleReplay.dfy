/** How a mirror can come to differ for good while its stream is up all the time,
    as a run of the protocol: events older than a pass's snapshot are applied over
    it, and the names they bring back block one another, until two units have each
    other's name and neither the stream nor any pass can part them. */
module StaleReplay {
  import opened Wrappers
  import opened UnitFields
  import opened Store
  import opened StoreLaws
  import opened EventLaws
  import opened Passes
  import opened RepeatedPasses
  import opened Waiting
  import opened Convergence
  import opened Mirroring

  function Named(name: string): Input {
    Input(name, None, None, None)
  }

  type Names = (string, string, string)

  /** The three units with these names: on the remote, and mirrored here. */
  function Own(name: string): Unit {
    Unit(Named(name), None, Some(0), Some(0))
  }

  function Copy(name: string): Unit {
    Unit(Named(name), Some(0), None, None)
  }

  function Owned(n: Names): map<UnitId, Unit> {
    map[1 := Own(n.0), 2 := Own(n.1), 3 := Own(n.2)]
  }

  function Copied(n: Names): map<UnitId, Unit> {
    map[1 := Copy(n.0), 2 := Copy(n.1), 3 := Copy(n.2)]
  }

  function Fields(n: Names): Listing {
    map[1 := Named(n.0), 2 := Named(n.1), 3 := Named(n.2)]
  }

  function NameAt(n: Names, id: UnitId): string {
    if id == 1 then n.0 else if id == 2 then n.1 else n.2
  }

  function With(n: Names, id: UnitId, name: string): Names {
    if id == 1 then (name, n.1, n.2) else if id == 2 then (n.0, name, n.2) else (n.0, n.1, name)
  }

  predicate Letter(name: string) {
    |name| == 1 && 'a' <= name[0] <= 'z'
  }

  predicate Letters(n: Names) {
    Letter(n.0) && Letter(n.1) && Letter(n.2) && n.0 != n.1 && n.1 != n.2 && n.0 != n.2
  }

  predicate Taken(n: Names, id: UnitId, name: string) {
    (id != 1 && n.0 == name) || (id != 2 && n.1 == name) || (id != 3 && n.2 == name)
  }

  lemma LettersAreNormal(name: string)
    requires Letter(name)
    ensures Normal(Named(name)) && Applied(Named(name)) == Success(Named(name))
  {
    NormalForms(Named(name));
  }

  lemma LettersApart(name: string, other: string)
    requires Letter(name) && Letter(other)
    ensures Changed(Named(other), Named(name)) == [] <==> name == other
  {
  }

  // ---------- A rename on the remote and its event here ----------

  function Renaming(id: UnitId, name: string): Op {
    Op.Patch(id, Overwrite(Edit(Some(name), None, None, None)), 0)
  }

  lemma RemoteRenames(db: Db, n: Names, id: UnitId, name: string)
    requires db.units == Owned(n) && Letters(n) && 1 <= id <= 3 && Letter(name)
    requires !Taken(n, id, name) && name != NameAt(n, id)
    ensures Step(db, Renaming(id, name)) ==
              Db(Owned(With(n, id, name)), db.remotes, db.history, db.published + [Updated(id, Own(name))])
  {
    var patch := Overwrite(Edit(Some(name), None, None, None));
    LettersAreNormal(name);
    LettersApart(name, NameAt(n, id));
    assert patch(db.units[id].fields) == Named(name);
    assert !NameHeld(db.units, id, name);
    assert db.units[id := Own(name)] == Owned(With(n, id, name));
    assert db.history + [] == db.history;
  }

  /** A name another mirrored unit has is refused; any other is taken over. */
  lemma MirrorRenames(db: Db, n: Names, id: UnitId, name: string)
    requires db.units == Copied(n) && Letters(n) && 1 <= id <= 3 && Letter(name)
    ensures UpsertIn(db, 0, id, Named(name)).0.units == Copied(if Taken(n, id, name) then n else With(n, id, name))
  {
    LettersAreNormal(name);
    LettersApart(name, NameAt(n, id));
    assert NameHeld(db.units, id, name) <==> Taken(n, id, name) by {
      assert 1 in db.units && 2 in db.units && 3 in db.units;
      assert db.units[1].fields.name == n.0 && db.units[2].fields.name == n.1 && db.units[3].fields.name == n.2;
    }
    if !Taken(n, id, name) {
      assert db.units[id := Copy(name)] == Copied(With(n, id, name));
    }
  }

  // ---------- The run, one action at a time ----------

  const FIRST: Names := ("x", "y", "z")
  const LAST: Names := ("n", "w", "m")

  /** The remote after its three units were created. */
  const REMOTE := Db(Owned(FIRST), {}, [], [Created(1, Own("x")), Created(2, Own("y")), Created(3, Own("z"))])
  const HERE := Db(map[], {0}, [], [])

  /** The names the remote gives after the subscription, in order. */
  const RENAMES: seq<(UnitId, string)> := [(1, "u"), (2, "n"), (1, "w"), (2, "m"), (1, "n"), (2, "w"), (3, "m")]

  function NamesAfter(n: Names, k: nat): Names
    requires k <= 7
  {
    if k == 0 then n else With(NamesAfter(n, k - 1), RENAMES[k - 1].0, RENAMES[k - 1].1)
  }

  /** The mirror after the first `k` of their events were applied over the last names. */
  function MirrorAfter(k: nat): Names
    requires k <= 7
  {
    if k == 0 then LAST
    else
      var n := MirrorAfter(k - 1);
      if Taken(n, RENAMES[k - 1].0, RENAMES[k - 1].1) then n else With(n, RENAMES[k - 1].0, RENAMES[k - 1].1)
  }

  const START := State(REMOTE, HERE, 0, Offline, Idle, false, None, map[], {})

  lemma Creation()
    ensures Step(Step(Step(EMPTY, Op.Create(1, Named("x"), 0)), Op.Create(2, Named("y"), 0)),
        Op.Create(3, Named("z"), 0)) == REMOTE
  {
    LettersAreNormal("x");
    LettersAreNormal("y");
    LettersAreNormal("z");
    var d1 := Step(EMPTY, Op.Create(1, Named("x"), 0));
    assert d1.units == map[1 := Own("x")];
    var d2 := Step(d1, Op.Create(2, Named("y"), 0));
    assert d2.units == map[1 := Own("x"), 2 := Own("y")];
    assert !NameHeld(d2.units, 3, "z");
  }

  lemma StartIsInit()
    ensures Init(START)
  {
    var d1 := Step(EMPTY, Op.Create(1, Named("x"), 0));
    var d2 := Step(d1, Op.Create(2, Named("y"), 0));
    EmptyIsSourceOk();
    SourceStep(EMPTY, Op.Create(1, Named("x"), 0));
    SourceStep(d1, Op.Create(2, Named("y"), 0));
    SourceStep(d2, Op.Create(3, Named("z"), 0));
    Creation();
  }

  lemma EmptyIsSourceOk()
    ensures SourceOk(EMPTY)
  {
    EmptyIsValid();
    assert View(EMPTY.units) == map[];
  }

  /** No operation but the worker's own happens here. */
  ghost predicate Undisturbed(actions: seq<Action>) {
    forall a | a in actions :: !a.LocalOp?
  }

  function EventOf(k: nat): Event
    requires k < 7
  {
    Updated(RENAMES[k].0, Own(RENAMES[k].1))
  }

  /** The remote after `k` of the renames, each with its event. */
  ghost predicate Renamed(source: Db, k: nat)
    requires k <= 7
  {
    && source.units == Owned(NamesAfter(FIRST, k)) && |source.published| == 3 + k
    && forall i | 0 <= i < k :: source.published[3 + i] == EventOf(i)
  }

  lemma RenamesAreFree(k: nat)
    requires k < 7
    ensures var n := NamesAfter(FIRST, k);
            Letters(n) && Letter(RENAMES[k].1) && !Taken(n, RENAMES[k].0, RENAMES[k].1)
                && RENAMES[k].1 != NameAt(n, RENAMES[k].0)
  {
    assert NamesAfter(FIRST, 0) == ("x", "y", "z");
    assert NamesAfter(FIRST, 1) == ("u", "y", "z");
    assert NamesAfter(FIRST, 2) == ("u", "n", "z");
    assert NamesAfter(FIRST, 3) == ("w", "n", "z");
    assert NamesAfter(FIRST, 4) == ("w", "m", "z");
    assert NamesAfter(FIRST, 5) == ("n", "m", "z");
    assert NamesAfter(FIRST, 6) == ("n", "w", "z");
  }

  /** Connected before the renames; the worker is idle. */
  ghost predicate Connected(s: State, k: nat)
    requires k <= 7
  {
    Renamed(s.source, k) && s == START.(source := s.source, stream := Online(3, 3, true, false, false), trigger := true)
  }

  lemma RenameHappens(s: State, k: nat)
    requires k < 7 && Connected(s, k)
    ensures Connected(Next(s, RemoteOp(Renaming(RENAMES[k].0, RENAMES[k].1))), k + 1)
  {
    RenamesAreFree(k);
    RemoteRenames(s.source, NamesAfter(FIRST, k), RENAMES[k].0, RENAMES[k].1);
  }

  lemma {:induction false} RenamesHappen(k: nat) returns (actions: seq<Action>)
    requires k <= 7
    ensures Undisturbed(actions) && Connected(Runs(START, actions), k)
  {
    if k == 0 {
      actions := [Connect, Request];
      RunsOneMore(START, [Connect], Request);
      RunsOneMore(START, [], Connect);
      assert [] + [Connect] == [Connect] && [Connect] + [Request] == actions;
    } else {
      var before := RenamesHappen(k - 1);
      var rename := RemoteOp(Renaming(RENAMES[k - 1].0, RENAMES[k - 1].1));
      RenameHappens(Runs(START, before), k - 1);
      RunsOneMore(START, before, rename);
      actions := before + [rename];
    }
  }

  // ---------- The pass ----------

  /** What stays the same from the listing on. */
  ghost predicate AllRenamed(s: State) {
    Renamed(s.source, 7) && s.remote == 0 && !s.trigger && s.stream.Online? && s.stream.subscribed == 3
        && s.stream.requested
  }

  function Listing3(): seq<RemoteUnit> {
    [Response(1, Named(LAST.0)), Response(2, Named(LAST.1)), Response(3, Named(LAST.2))]
  }

  /** The mirror while the pass works through the listing. */
  function CopiedUpTo(k: nat): map<UnitId, Unit>
    requires k <= 3
  {
    if k == 0 then map[] else CopiedUpTo(k - 1)[k := Copy(NameAt(LAST, k))]
  }

  lemma ListedAtTheEnd()
    ensures ListsAll(Fields(LAST), [1, 2, 3]) && Served(Fields(LAST), [1, 2, 3]) == Listing3()
  {
  }

  lemma RemoteEnds(source: Db)
    requires Renamed(source, 7)
    ensures View(source.units) == Fields(LAST) && |source.published| == 10
  {
    NamesEnd();
  }

  lemma ListingIs(s: State)
    requires View(s.source.units) == Fields(LAST) && |s.source.published| == 10
    requires s.stream.Online? && s.pass.Starting?
    ensures var s' := Next(s, List([1, 2, 3]));
            s' == s.(pass := Passing(10, Listing3(), 0, None), stream := s.stream.(listed := true))
  {
    ListedAtTheEnd();
  }

  lemma PassBegins() returns (actions: seq<Action>)
    ensures Undisturbed(actions)
    ensures var s := Runs(START, actions);
            AllRenamed(s) && s.local == HERE && s.stream.applied == 3 && s.pass == Passing(10, Listing3(), 0, None)
  {
    var before := RenamesHappen(7);
    RunsOneMore(START, before, TakeTrigger);
    var taken := before + [TakeTrigger];
    RemoteEnds(Runs(START, taken).source);
    ListingIs(Runs(START, taken));
    RunsOneMore(START, taken, List([1, 2, 3]));
    actions := taken + [List([1, 2, 3])];
  }

  lemma NamesEnd()
    ensures NamesAfter(FIRST, 7) == LAST && MirrorAfter(7) == ("w", "n", "m")
    ensures forall k | 0 <= k <= 7 :: Letters(MirrorAfter(k))
  {
    assert NamesAfter(FIRST, 6) == ("n", "w", "z") by {
      RenamesAreFree(6);
    }
    assert MirrorAfter(0) == LAST;
    assert MirrorAfter(1) == ("u", "w", "m");
    assert MirrorAfter(2) == ("u", "n", "m");
    assert MirrorAfter(3) == ("w", "n", "m");
    assert MirrorAfter(4) == ("w", "n", "m");
    assert MirrorAfter(5) == ("w", "n", "m");
    assert MirrorAfter(6) == ("w", "n", "m");
    forall k | 0 <= k <= 7 ensures Letters(MirrorAfter(k)) {
      assert k == 0 || k == 1 || k == 2 || k == 3 || k == 4 || k == 5 || k == 6 || k == 7;
    }
  }

  /** The name the next unit is created under is still free. */
  lemma NextIsNew(k: nat)
    requires k < 3
    ensures k + 1 !in CopiedUpTo(k) && !NameHeld(CopiedUpTo(k), k + 1, NameAt(LAST, k + 1))
  {
    assert CopiedUpTo(0) == map[];
    assert CopiedUpTo(1) == map[1 := Copy("n")];
    assert CopiedUpTo(2) == map[1 := Copy("n"), 2 := Copy("w")];
  }

  lemma MirrorCreates(db: Db, k: nat)
    requires k < 3 && db.units == CopiedUpTo(k) && db.remotes == {0}
    ensures var u := Listing3()[k];
            var db' := UpsertIn(db, 0, u.id, u.ToInput()).0; db'.units == CopiedUpTo(k + 1) && db'.remotes == {0}
  {
    var name := NameAt(LAST, k + 1);
    LettersAreNormal(name);
    MirrorReproduces(k + 1, Named(name));
    NextIsNew(k);
    assert Listing3()[k] == Response(k + 1, Named(name));
  }

  ghost predicate Upserting(s: State, k: nat)
    requires k <= 3
  {
    && AllRenamed(s) && s.local.units == CopiedUpTo(k) && s.local.remotes == {0}
    && s.stream.applied == 3 && s.pass == Passing(10, Listing3(), k, None)
  }

  lemma UpsertHappens(s: State, k: nat)
    requires k < 3 && Upserting(s, k)
    ensures Upserting(Next(s, UpsertNext), k + 1)
  {
    MirrorCreates(s.local, k);
  }

  lemma {:induction false} PassUpserts(k: nat) returns (actions: seq<Action>)
    requires k <= 3
    ensures Undisturbed(actions) && Upserting(Runs(START, actions), k)
  {
    if k == 0 {
      actions := PassBegins();
    } else {
      var before := PassUpserts(k - 1);
      UpsertHappens(Runs(START, before), k - 1);
      RunsOneMore(START, before, UpsertNext);
      actions := before + [UpsertNext];
    }
  }

  /** The state after the pass and the first `k` of the older events. */
  ghost predicate Replayed(s: State, k: nat)
    requires k <= 7
  {
    && AllRenamed(s) && s.pass.Idle? && s.synced == Some(Sync(10, 3))
    && s.stream.applied == 3 + k && s.local.units == Copied(MirrorAfter(k))
  }

  lemma CopiesAre()
    ensures CopiedUpTo(3) == Copied(LAST)
  {
    assert CopiedUpTo(1) == map[1 := Copy("n")];
    assert CopiedUpTo(2) == map[1 := Copy("n"), 2 := Copy("w")];
  }

  lemma NothingUnlisted()
    ensures Unlisted(Listing3(), [1, 2, 3]) == []
  {
    assert Listing3()[0].id == 1 && Listing3()[1].id == 2 && Listing3()[2].id == 3;
    assert [1, 2, 3][..2] == [1, 2] && [1, 2][..1] == [1] && [1][..0] == [];
    assert Unlisted(Listing3(), [1]) == [];
    assert Unlisted(Listing3(), [1, 2]) == [];
  }

  lemma NothingIsLeft(s: State, mirrored: seq<UnitId>)
    requires s.pass.Passing? && s.pass.done == |s.pass.list| && s.pass.rest.None?
    requires ListsMirrored(s.local, s.remote, mirrored) && Unlisted(s.pass.list, mirrored) == []
    ensures Next(s, FindMirrored(mirrored)) == s.(pass := s.pass.(rest := Some([])))
  {
  }

  lemma MirroredAreFound(s: State)
    requires s.remote == 0 && s.local.units == Copied(LAST) && s.pass == Passing(10, Listing3(), 3, None)
    ensures Next(s, FindMirrored([1, 2, 3])) == s.(pass := Passing(10, Listing3(), 3, Some([])))
  {
    NothingUnlisted();
    CopiesAreSynced(s.local);
    NothingIsLeft(s, [1, 2, 3]);
  }

  lemma CopiesAreSynced(db: Db)
    requires db.units == Copied(LAST)
    ensures ListsMirrored(db, 0, [1, 2, 3])
  {
    assert SyncedIdsIn(db, 0) == {1, 2, 3};
  }

  lemma PassFinishes(s: State)
    requires AllRenamed(s) && s.local.units == Copied(LAST) && s.stream.applied == 3
    requires s.pass == Passing(10, Listing3(), 3, Some([]))
    ensures Replayed(Next(s, FinishPass), 0)
  {
  }

  lemma PassEnds() returns (actions: seq<Action>)
    ensures Undisturbed(actions) && Replayed(Runs(START, actions), 0)
  {
    var before := PassUpserts(3);
    CopiesAre();
    MirroredAreFound(Runs(START, before));
    RunsOneMore(START, before, FindMirrored([1, 2, 3]));
    var found := before + [FindMirrored([1, 2, 3])];
    PassFinishes(Runs(START, found));
    RunsOneMore(START, found, FinishPass);
    actions := found + [FinishPass];
  }

  // ---------- The older events ----------

  lemma DeliveryIsMirroring(s: State, k: nat)
    requires k < 7 && AllRenamed(s) && s.pass.Idle? && s.stream.applied == 3 + k
    ensures var (id, name) := RENAMES[k];
            var s' := Next(s, Deliver);
            && s'.local == UpsertIn(s.local, 0, id, Named(name)).0
            && s' == s.(local := s'.local, want := s'.want, missed := s'.missed, stream := s.stream.(applied := 4 + k))
  {
    assert s.source.published[3 + k] == EventOf(k);
    assert Response(RENAMES[k].0, Named(RENAMES[k].1)).ToInput() == Named(RENAMES[k].1);
  }

  lemma MirrorTakesOrRefuses(db: Db, k: nat)
    requires k < 7 && db.units == Copied(MirrorAfter(k))
    ensures UpsertIn(db, 0, RENAMES[k].0, Named(RENAMES[k].1)).0.units == Copied(MirrorAfter(k + 1))
  {
    RenamesAreFree(k);
    NamesEnd();
    MirrorRenames(db, MirrorAfter(k), RENAMES[k].0, RENAMES[k].1);
  }

  lemma OlderEvent(s: State, k: nat)
    requires k < 7 && Replayed(s, k)
    ensures Replayed(Next(s, Deliver), k + 1)
  {
    DeliveryIsMirroring(s, k);
    MirrorTakesOrRefuses(s.local, k);
  }

  lemma {:induction false} EventsReplay(k: nat) returns (actions: seq<Action>)
    requires k <= 7
    ensures Undisturbed(actions) && Replayed(Runs(START, actions), k)
  {
    if k == 0 {
      actions := PassEnds();
    } else {
      var before := EventsReplay(k - 1);
      OlderEvent(Runs(START, before), k - 1);
      RunsOneMore(START, before, Deliver);
      actions := before + [Deliver];
    }
  }

  /** There is a run from a remote that its own operations produced, with nobody
      else changing anything here and the stream never down, after which a pass of
      the connection is complete and the stream drained, and two units have each
      other's name; no number of passes over the remote's units heals either. */
  lemma StaleEventsCanDiverge() returns (start: State, actions: seq<Action>)
    ensures Init(start) && Undisturbed(actions) && exists ops :: start.source == Run(EMPTY, ops)
    ensures var s := Runs(start, actions);
            && s.synced.Some? && s.pass.Idle? && s.stream.Online? && s.stream.applied == |s.source.published|
            && Unopposed(s.local.units, s.remote, View(s.source.units))
            && RenameCycle(s.local.units, View(s.source.units), [1, 2])
            && forall order, orders, x | x in {1, 2} :: !Heals(s, order, orders, x)
  {
    StartIsInit();
    var ops := RemoteRun();
    start := START;
    actions := EventsReplay(7);
    NamesEnd();
    var s := Runs(start, actions);
    SwappedIsCycle(s);
    RunsKeepInv(start, actions);
    forall order, orders, x | x in {1, 2} ensures !Heals(s, order, orders, x) {
      CyclesStay(s, [1, 2], order, orders, x);
    }
  }

  lemma SwappedIsCycle(s: State)
    requires s.remote == 0 && s.local.units == Copied(("w", "n", "m")) && s.source.units == Owned(LAST)
    ensures Unopposed(s.local.units, s.remote, View(s.source.units))
    ensures RenameCycle(s.local.units, View(s.source.units), [1, 2])
  {
    var units, goal := s.local.units, View(s.source.units);
    assert goal == Fields(LAST);
    assert WaitsForNext(units, goal, [1, 2], 0);
    assert WaitsForNext(units, goal, [1, 2], 1);
  }

  lemma RemoteRun() returns (ops: seq<Op>)
    ensures Run(EMPTY, ops) == REMOTE
  {
    ops := [Op.Create(1, Named("x"), 0), Op.Create(2, Named("y"), 0), Op.Create(3, Named("z"), 0)];
    Creation();
    var d1 := Step(EMPTY, ops[0]);
    assert ops[1..] == [ops[1], ops[2]] && [ops[1], ops[2]][1..] == [ops[2]];
    var d2 := Step(d1, ops[1]);
    assert Run(d2, [ops[2]]) == Run(Step(d2, ops[2]), []);
  }
}
