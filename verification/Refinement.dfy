/** The worker's methods keep to the protocol: what a connection and a pass do to
    the store is what the protocol's actions do to it. */
module Refinement {
  import opened Wrappers
  import opened UnitFields
  import opened Store
  import opened StoreLaws
  import opened EventLaws
  import opened Passes
  import opened Mirroring
  import W = Worker

  /** The message an instance sends for one of its events. */
  function Pushed(ev: Event): W.RemoteEvent {
    match ev
    case Created(id, unit) => W.Upsert(Some(Response(id, unit.fields)))
    case Updated(id, unit) => W.Upsert(Some(Response(id, unit.fields)))
    case Deleted(id) => W.Gone(id)
  }

  function PushedAll(events: seq<Event>): seq<W.RemoteEvent> {
    seq(|events|, i requires 0 <= i < |events| => Pushed(events[i]))
  }

  // ---------- A connection ----------

  lemma DeliveredIsApplied(s: State, ev: Event)
    ensures Delivered(s, ev).local == Run(s.local, W.EventOps(s.remote, Pushed(ev)))
  {
    match ev
    case Created(id, unit) =>
      W.RunOne(s.local, UpsertSynced(s.remote, id, Response(id, unit.fields).ToInput()));
    case Updated(id, unit) =>
      W.RunOne(s.local, UpsertSynced(s.remote, id, Response(id, unit.fields).ToInput()));
    case Deleted(id) => W.RunOne(s.local, Op.DeleteSynced(s.remote, id));
  }

  /** What the remote has published is only ever added to. */
  lemma SourceGrows(s: State, op: Op)
    requires Valid(s.source)
    ensures Valid(Next(s, RemoteOp(op)).source) && s.source.published <= Next(s, RemoteOp(op)).source.published
  {
    StepKeepsValid(s.source, op);
    StepReplays(s.source, op);
  }

  /** The store is what the worker makes of the events delivered since `s`, one
      after the other. */
  ghost predicate Followed(s: State, s': State)
    requires s.stream.Online?
  {
    && s'.stream.Online? && s.stream.applied <= s'.stream.applied <= |s'.source.published|
    && s' == s.(source := s'.source, local := s'.local, want := s'.want, missed := s'.missed,
                stream := s.stream.(applied := s'.stream.applied))
    && s'.local == Run(s.local, W.StreamOps(s.remote, Between(s'.source, s.stream.applied, s'.stream.applied)))
  }

  /** The messages for the remote's events from one count of events to another. */
  function Between(source: Db, from: nat, to: nat): seq<W.RemoteEvent>
    requires from <= to <= |source.published|
  {
    PushedAll(source.published[from..to])
  }

  lemma RemoteOpFollowed(s: State, s1: State, op: Op)
    requires s.stream.Online? && Followed(s, s1) && Valid(s1.source)
    ensures Followed(s, Next(s1, RemoteOp(op)))
  {
    SourceGrows(s1, op);
    var s' := Next(s1, RemoteOp(op));
    var from, to := s.stream.applied, s1.stream.applied;
    assert s'.source.published[from..to] == s1.source.published[from..to];
  }

  lemma BetweenNext(source: Db, from: nat, to: nat)
    requires from <= to < |source.published|
    ensures Between(source, from, to + 1) == Between(source, from, to) + [Pushed(source.published[to])]
  {
    assert source.published[from..to + 1] == source.published[from..to] + [source.published[to]];
  }

  lemma DeliverIsApply(s: State)
    requires Enabled(s, Deliver)
    ensures var s' := Next(s, Deliver);
            && s' == s.(local := s'.local, want := s'.want, missed := s'.missed,
                        stream := s.stream.(applied := s.stream.applied + 1))
            && s'.local == Run(s.local, W.EventOps(s.remote, Pushed(s.source.published[s.stream.applied])))
  {
    DeliveredIsApplied(s, s.source.published[s.stream.applied]);
  }

  lemma FollowedOneMore(s: State, s1: State, s': State)
    requires s.stream.Online? && Followed(s, s1) && s1.stream.applied < |s1.source.published|
    requires s' == s1.(local := s'.local, want := s'.want, missed := s'.missed,
                       stream := s1.stream.(applied := s1.stream.applied + 1))
    requires s'.local == Run(s1.local, W.EventOps(s1.remote, Pushed(s1.source.published[s1.stream.applied])))
    ensures Followed(s, s')
  {
    var from, to := s.stream.applied, s1.stream.applied;
    BetweenNext(s1.source, from, to);
    W.StreamAppend(s.local, s.remote, Between(s1.source, from, to), Pushed(s1.source.published[to]));
  }

  lemma DeliverFollowed(s: State, s1: State)
    requires s.stream.Online? && Followed(s, s1)
    ensures Followed(s, Next(s1, Deliver))
  {
    if Enabled(s1, Deliver) {
      DeliverIsApply(s1);
      FollowedOneMore(s, s1, Next(s1, Deliver));
    }
  }

  /** While a connection lasts and no pass is made, the remote changing in between
      anywhere, the store is what the worker's Follow makes of the events the
      remote published next. */
  lemma {:induction false} FollowsProtocol(s: State, actions: seq<Action>)
    requires Valid(s.source) && s.stream.Online? && s.stream.applied <= |s.source.published|
    requires forall a | a in actions :: a.RemoteOp? || a.Deliver?
    ensures Followed(s, Runs(s, actions)) && Valid(Runs(s, actions).source)
    decreases |actions|
  {
    if actions == [] {
      assert Between(s.source, s.stream.applied, s.stream.applied) == [];
    } else {
      var before, a := actions[..|actions| - 1], actions[|actions| - 1];
      assert actions == before + [a];
      FollowsProtocol(s, before);
      RunsOneMore(s, before, a);
      if a.RemoteOp? {
        SourceGrows(Runs(s, before), a.op);
        RemoteOpFollowed(s, Runs(s, before), a.op);
      } else {
        DeliverFollowed(s, Runs(s, before));
      }
    }
  }

  // ---------- A pass ----------

  /** The actions of a pass that nothing interrupts. */
  function Upserts(n: nat): seq<Action> {
    seq(n, _ => UpsertNext)
  }

  function Deletes(n: nat): seq<Action> {
    seq(n, _ => DeleteNext)
  }

  lemma UpsertFollowed(s: State)
    requires s.pass.Passing? && s.pass.done < |s.pass.list| && s.pass.rest.None?
    ensures var s' := Next(s, UpsertNext);
            var u := s.pass.list[s.pass.done];
            && s'.local == UpsertIn(s.local, s.remote, u.id, u.ToInput()).0
            && s' == s.(local := s'.local, want := s'.want, missed := s'.missed,
                        pass := s.pass.(done := s.pass.done + 1))
  {
  }

  /** The first `n` listed units have been upserted since `s`. */
  ghost predicate UpsertedSince(s: State, s': State, n: nat)
    requires s.pass.Passing? && n <= |s.pass.list|
  {
    && s'.local == Upserted(s.local, s.remote, s.pass.list[..n])
    && s' == s.(local := s'.local, want := s'.want, missed := s'.missed, pass := s.pass.(done := n))
  }

  lemma UpsertedOneMore(s: State, s1: State, s': State, n: nat)
    requires s.pass.Passing? && n < |s.pass.list| && UpsertedSince(s, s1, n)
    requires s' == s1.(local := s'.local, want := s'.want, missed := s'.missed, pass := s1.pass.(done := n + 1))
    requires s'.local == UpsertIn(s1.local, s.remote, s.pass.list[n].id, s.pass.list[n].ToInput()).0
    ensures UpsertedSince(s, s', n + 1)
  {
    UpsertedAppend(s.local, s.remote, s.pass.list, n);
  }

  lemma {:induction false} UpsertsFollowed(s: State, n: nat)
    requires s.pass.Passing? && s.pass.done == 0 && s.pass.rest.None? && n <= |s.pass.list|
    ensures UpsertedSince(s, Runs(s, Upserts(n)), n)
  {
    if n == 0 {
      assert UpsertOps(s.remote, s.pass.list[..0]) == [];
    } else {
      UpsertsFollowed(s, n - 1);
      assert Upserts(n) == Upserts(n - 1) + [UpsertNext];
      RunsOneMore(s, Upserts(n - 1), UpsertNext);
      UpsertFollowed(Runs(s, Upserts(n - 1)));
      UpsertedOneMore(s, Runs(s, Upserts(n - 1)), Runs(s, Upserts(n)), n - 1);
    }
  }

  lemma {:induction false} DeletesFollowed(s: State, n: nat)
    requires s.pass.Passing? && s.pass.rest.Some? && n <= |s.pass.rest.value|
    ensures var s' := Runs(s, Deletes(n));
            && s'.local == Run(s.local, DeleteOps(s.remote, s.pass.rest.value[..n]))
            && s' == s.(local := s'.local, want := s'.want, missed := s'.missed,
                        pass := s.pass.(rest := Some(s.pass.rest.value[n..])))
  {
    var ids := s.pass.rest.value;
    if n == 0 {
      assert DeleteOps(s.remote, ids[..0]) == [] && ids[0..] == ids;
    } else {
      DeletesFollowed(s, n - 1);
      assert Deletes(n) == Deletes(n - 1) + [DeleteNext];
      RunsOneMore(s, Deletes(n - 1), DeleteNext);
      assert ids[..n] == ids[..n - 1] + [ids[n - 1]] && ids[n - 1..][1..] == ids[n..];
      DeletedAppend(s.local, s.remote, ids[..n - 1], ids[n - 1]);
    }
  }

  lemma {:induction false} RunsConcat(s: State, first: seq<Action>, second: seq<Action>)
    ensures Runs(s, first + second) == Runs(Runs(s, first), second)
    decreases |second|
  {
    if second == [] {
      assert first + second == first;
    } else {
      var init, last := second[..|second| - 1], second[|second| - 1];
      assert second == init + [last] && first + second == (first + init) + [last];
      RunsConcat(s, first, init);
      RunsOneMore(s, first + init, last);
      RunsOneMore(Runs(s, first), init, last);
    }
  }

  lemma Then(s: State, first: seq<Action>, s1: State, second: seq<Action>, s2: State)
    requires Runs(s, first) == s1 && Runs(s1, second) == s2
    ensures Runs(s, first + second) == s2
  {
    RunsConcat(s, first, second);
  }

  lemma RunsOne(s: State, a: Action)
    ensures Runs(s, [a]) == Next(s, a)
  {
    RunsOneMore(s, [], a);
    assert [] + [a] == [a];
  }

  lemma ListFollowed(s: State, order: seq<UnitId>)
    requires s.pass.Starting? && ListsAll(View(s.source.units), order)
    ensures var s' := Runs(s, [List(order)]);
            && s' == s.(stream := s'.stream,
                        pass := Passing(|s.source.published|, Served(View(s.source.units), order), 0, None))
  {
    RunsOne(s, List(order));
  }

  lemma FindFollowed(s: State, mirrored: seq<UnitId>)
    requires s.pass.Passing? && s.pass.done == |s.pass.list| && s.pass.rest.None?
    requires ListsMirrored(s.local, s.remote, mirrored)
    ensures Runs(s, [FindMirrored(mirrored)]) == s.(pass := s.pass.(rest := Some(Unlisted(s.pass.list, mirrored))))
  {
    RunsOne(s, FindMirrored(mirrored));
  }

  lemma FinishFollowed(s: State)
    requires s.pass.Passing? && s.pass.rest == Some([])
    ensures var s' := Runs(s, [FinishPass]); s'.pass.Idle? && s'.source == s.source && s'.local == s.local
  {
    RunsOne(s, FinishPass);
  }

  function PassActions(list: seq<RemoteUnit>, order: seq<UnitId>, mirrored: seq<UnitId>): seq<Action> {
    [List(order)] + Upserts(|list|) + [FindMirrored(mirrored)] + Deletes(|Unlisted(list, mirrored)|) + [FinishPass]
  }

  /** A pass that nothing interrupts leaves the store as the worker's SyncOnce
      does on the listing the remote serves at its beginning. */
  lemma PassFollowsProtocol(s: State, order: seq<UnitId>, mirrored: seq<UnitId>)
    requires s.pass.Starting? && ListsAll(View(s.source.units), order)
    requires PassFinds(s.local, s.remote, Served(View(s.source.units), order), mirrored)
    ensures var list := Served(View(s.source.units), order);
            var s' := Runs(s, PassActions(list, order, mirrored));
            s'.pass.Idle? && s'.source == s.source && s'.local == Pass(s.local, s.remote, list, mirrored)
  {
    var list := Served(View(s.source.units), order);
    var gone := Unlisted(list, mirrored);
    assert list[..|list|] == list && gone[..|gone|] == gone && gone[|gone|..] == [];
    var s1 := Runs(s, [List(order)]);
    ListFollowed(s, order);
    var s2 := Runs(s1, Upserts(|list|));
    UpsertsFollowed(s1, |list|);
    Then(s, [List(order)], s1, Upserts(|list|), s2);
    var s3 := Runs(s2, [FindMirrored(mirrored)]);
    FindFollowed(s2, mirrored);
    Then(s, [List(order)] + Upserts(|list|), s2, [FindMirrored(mirrored)], s3);
    var s4 := Runs(s3, Deletes(|gone|));
    DeletesFollowed(s3, |gone|);
    Then(s, [List(order)] + Upserts(|list|) + [FindMirrored(mirrored)], s3, Deletes(|gone|), s4);
    FinishFollowed(s4);
    Then(s, [List(order)] + Upserts(|list|) + [FindMirrored(mirrored)] + Deletes(|gone|), s4, [FinishPass],
        Runs(s4, [FinishPass]));
  }
}
