/** The broker, which copies every event into bounded channels, and the handler
    that forwards one channel to one client.

    Every operation runs under the broker's mutex, so an interleaving is a
    sequence of whole operations. */
module Broker {
  import opened Wrappers
  import opened Store

  const SUBSCRIBER_BUFFER := 64

  /** A channel's contents and whether it is still open. */
  datatype Queue = Queue(buffer: seq<Event>, open: bool)

  const NEW_QUEUE := Queue([], true)

  /** What publishing does to one subscriber's channel. */
  function Offered(q: Queue, ev: Event): Queue {
    if !q.open then q
    else if |q.buffer| < SUBSCRIBER_BUFFER then Queue(q.buffer + [ev], true)
    else Queue(q.buffer, false)
  }

  /** A buffered channel: sending to or closing a closed one would panic. */
  class Channel {
    var buffer: seq<Event>
    var open: bool

    constructor ()
      ensures State() == NEW_QUEUE
    {
      buffer := [];
      open := true;
    }

    function State(): Queue
      reads this
    {
      Queue(buffer, open)
    }

    method TrySend(ev: Event) returns (sent: bool)
      requires open
      modifies this
      ensures sent == (|old(buffer)| < SUBSCRIBER_BUFFER)
      ensures State() == Queue(if sent then old(buffer) + [ev] else old(buffer), true)
    {
      sent := |buffer| < SUBSCRIBER_BUFFER;
      if sent {
        buffer := buffer + [ev];
      }
    }

    method Close()
      requires open
      modifies this
      ensures State() == Queue(old(buffer), false)
    {
      open := false;
    }
  }

  class Broker {
    var subs: set<Channel>

    /** No subscribed channel is closed, so none is closed twice or sent to
        after its close. */
    ghost predicate Valid()
      reads this, subs
    {
      forall ch | ch in subs :: ch.open
    }

    constructor ()
      ensures Valid() && subs == {}
    {
      subs := {};
    }

    method Subscribe() returns (ch: Channel)
      requires Valid()
      modifies this
      ensures Valid() && fresh(ch) && ch.State() == NEW_QUEUE && subs == old(subs) + {ch}
    {
      ch := new Channel();
      subs := subs + {ch};
    }

    /** Offers the event to every subscriber, in no particular order, and drops
        those whose buffer it finds full. */
    method Publish(ev: Event)
      requires Valid()
      modifies this, subs
      ensures Valid()
      ensures forall ch | ch in old(subs) :: ch.State() == Offered(old(ch.State()), ev)
      ensures forall ch :: ch in subs <==> ch in old(subs) && ch.open
    {
      var rest := subs;
      while rest != {}
        invariant rest <= subs <= old(subs) && Valid()
        invariant forall ch | ch in rest :: ch.State() == old(ch.State())
        invariant forall ch | ch in old(subs) - rest :: ch.State() == Offered(old(ch.State()), ev)
        invariant forall ch | ch in old(subs) - rest :: ch in subs <==> ch.open
        decreases |rest|
      {
        var ch :| ch in rest;
        rest := rest - {ch};
        var sent := ch.TrySend(ev);
        if !sent {
          Remove(ch);
        }
      }
    }

    /** Ends a subscription; one that has ended already stays as it is. */
    method Remove(ch: Channel)
      requires Valid()
      modifies this, ch
      ensures Valid() && subs == old(subs) - {ch}
      ensures ch.State() == if ch in old(subs) then Queue(old(ch.buffer), false) else old(ch.State())
    {
      if ch in subs {
        subs := subs - {ch};
        ch.Close();
      }
    }
  }

  // ---------- Whole runs ----------

  /** Why a client's stream ended. */
  datatype Ending = Rejected | ClientClosed | ShuttingDown | TooSlow | WriteFailed | PingFailed | SessionEnded

  /** One subscription and its handler: `start` is the number of events published
      before it, `taken` what the handler received, `sent` what it wrote. */
  datatype Subscriber = Subscriber(start: nat, queue: Queue, taken: seq<Event>, sent: seq<Event>, end: Option<Ending>)

  type SubscriberId = nat

  datatype State = State(log: seq<Event>, subs: map<SubscriberId, Subscriber>)

  datatype Action =
    | Subscribe(id: SubscriberId)
    | Publish(ev: Event)
    | Forward(id: SubscriberId, written: bool)  // takes the next event and writes it
    | SeeClosed(id: SubscriberId)               // finds the channel closed and empty
    | End(id: SubscriberId, why: Ending)        // any other reason to stop
    | Cancel(id: SubscriberId)                  // the handler's last act

  predicate Enabled(s: State, a: Action) {
    match a
    case Subscribe(id) => id !in s.subs
    case Publish(_) => true
    case Forward(id, _) => id in s.subs && s.subs[id].end.None? && s.subs[id].queue.buffer != []
    case SeeClosed(id) => id in s.subs && s.subs[id].end.None? && s.subs[id].queue == Queue([], false)
    case End(id, why) => id in s.subs && s.subs[id].end.None? && why != TooSlow && why != WriteFailed
    case Cancel(id) => id in s.subs && s.subs[id].end.Some?
  }

  function Forwarded(sub: Subscriber, written: bool): Subscriber
    requires sub.queue.buffer != []
  {
    var ev := sub.queue.buffer[0];
    sub.(queue := sub.queue.(buffer := sub.queue.buffer[1..]),
         taken := sub.taken + [ev],
         sent := if written then sub.sent + [ev] else sub.sent,
         end := if written then None else Some(WriteFailed))
  }

  function Next(s: State, a: Action): State {
    if !Enabled(s, a) then s
    else
      match a
      case Subscribe(id) => s.(subs := s.subs[id := Subscriber(|s.log|, NEW_QUEUE, [], [], None)])
      case Publish(ev) => State(s.log + [ev], map id | id in s.subs ::
          s.subs[id].(queue := Offered(s.subs[id].queue, ev)))
      case Forward(id, written) => s.(subs := s.subs[id := Forwarded(s.subs[id], written)])
      case SeeClosed(id) => s.(subs := s.subs[id := s.subs[id].(end := Some(TooSlow))])
      case End(id, why) => s.(subs := s.subs[id := s.subs[id].(end := Some(why))])
      case Cancel(id) => s.(subs := s.subs[id := s.subs[id].(queue := s.subs[id].queue.(open := false))])
  }

  function Runs(s: State, actions: seq<Action>): State
    decreases |actions|
  {
    if actions == [] then s else Runs(Next(s, actions[0]), actions[1..])
  }

  const EMPTY := State([], map[])

  /** Events published since the subscription that the handler has not taken. */
  function Lag(log: seq<Event>, sub: Subscriber): int {
    |log| - sub.start - |sub.taken|
  }

  /** The end of what the subscriber can ever read. */
  function Reach(sub: Subscriber): nat {
    sub.start + |sub.taken| + |sub.queue.buffer|
  }

  predicate SubscriberOk(log: seq<Event>, sub: Subscriber) {
    && Reach(sub) <= |log|
    && sub.taken + sub.queue.buffer == log[sub.start..Reach(sub)]
    && |sub.queue.buffer| <= SUBSCRIBER_BUFFER
    && (sub.queue.open ==> Reach(sub) == |log|)
    && (sub.end.None? && !sub.queue.open ==>
        Reach(sub) < |log| && |sub.taken| + |sub.queue.buffer| >= SUBSCRIBER_BUFFER)
    && (if sub.end == Some(WriteFailed) then |sub.sent| + 1 == |sub.taken| && sub.sent == sub.taken[..|sub.sent|]
        else sub.sent == sub.taken)
    && (sub.end == Some(TooSlow) ==>
        sub.queue == Queue([], false) && Reach(sub) < |log| && |sub.taken| >= SUBSCRIBER_BUFFER)
  }

  predicate Inv(s: State) {
    forall id | id in s.subs :: SubscriberOk(s.log, s.subs[id])
  }

  lemma PublishKeeps(log: seq<Event>, sub: Subscriber, ev: Event)
    requires SubscriberOk(log, sub)
    ensures SubscriberOk(log + [ev], sub.(queue := Offered(sub.queue, ev)))
  {
    var sub' := sub.(queue := Offered(sub.queue, ev));
    if Reach(sub') == Reach(sub) {
      assert (log + [ev])[sub.start..Reach(sub)] == log[sub.start..Reach(sub)];
    } else {
      assert (log + [ev])[sub.start..|log| + 1] == log[sub.start..|log|] + [ev];
      assert sub.taken + (sub.queue.buffer + [ev]) == (sub.taken + sub.queue.buffer) + [ev];
    }
  }

  lemma ForwardKeeps(log: seq<Event>, sub: Subscriber, written: bool)
    requires SubscriberOk(log, sub) && sub.end.None? && sub.queue.buffer != []
    ensures SubscriberOk(log, Forwarded(sub, written))
  {
    var sub' := Forwarded(sub, written);
    assert sub'.taken + sub'.queue.buffer == sub.taken + sub.queue.buffer;
    assert sub'.taken[..|sub.taken|] == sub.taken;
  }

  lemma NextKeepsInv(s: State, a: Action)
    requires Inv(s)
    ensures Inv(Next(s, a))
  {
    if Enabled(s, a) {
      match a
      case Publish(ev) =>
        forall id | id in s.subs ensures SubscriberOk(Next(s, a).log, Next(s, a).subs[id]) {
          PublishKeeps(s.log, s.subs[id], ev);
        }
      case Forward(id, written) => ForwardKeeps(s.log, s.subs[id], written);
      case _ =>
    }
  }

  lemma {:induction false} RunsKeepInv(s: State, actions: seq<Action>)
    requires Inv(s)
    ensures Inv(Runs(s, actions))
    decreases |actions|
  {
    if actions != [] {
      NextKeepsInv(s, actions[0]);
      RunsKeepInv(Next(s, actions[0]), actions[1..]);
    }
  }

  /** The stream law. In every interleaving a subscriber's received and buffered
      events are exactly those published since it subscribed while it stays
      subscribed, and a gap-free beginning of them afterwards. */
  lemma StreamLaw(actions: seq<Action>, id: SubscriberId)
    requires id in Runs(EMPTY, actions).subs
    ensures var s := Runs(EMPTY, actions);
            var sub := s.subs[id];
            && sub.start <= |s.log|
            && sub.taken + sub.queue.buffer <= s.log[sub.start..]
            && (sub.queue.open ==> sub.taken + sub.queue.buffer == s.log[sub.start..])
            && |sub.queue.buffer| <= SUBSCRIBER_BUFFER
  {
    RunsKeepInv(EMPTY, actions);
    var s := Runs(EMPTY, actions);
    var sub := s.subs[id];
    assert SubscriberOk(s.log, sub);
    assert s.log[sub.start..] == s.log[sub.start..Reach(sub)] + s.log[Reach(sub)..];
  }

  lemma SliceBegins(log: seq<Event>, start: nat, end: nat, n: nat)
    requires start + n <= end <= |log|
    ensures log[start..end][..n] == log[start..start + n]
  {
    var a, b := log[start..end][..n], log[start..start + n];
    assert |a| == |b| == n;
    forall i | 0 <= i < n ensures a[i] == b[i] {
      assert a[i] == log[start..end][i] == log[start + i];
    }
  }

  /** What the client got is an unbroken beginning of the events since its
      subscription; it is told that it is too slow only after 64 of them, with
      everything buffered delivered and at least one event missed. */
  lemma ClientSeesPrefix(actions: seq<Action>, id: SubscriberId)
    requires id in Runs(EMPTY, actions).subs
    ensures var s := Runs(EMPTY, actions);
            var sub := s.subs[id];
            && sub.start + |sub.sent| <= |s.log|
            && sub.sent == s.log[sub.start..sub.start + |sub.sent|]
            && (sub.end == Some(TooSlow) ==> |sub.sent| >= SUBSCRIBER_BUFFER && sub.start + |sub.sent| < |s.log|)
  {
    RunsKeepInv(EMPTY, actions);
    var s := Runs(EMPTY, actions);
    var sub := s.subs[id];
    assert SubscriberOk(s.log, sub);
    var all := sub.taken + sub.queue.buffer;
    assert sub.sent == all[..|sub.sent|];
    SliceBegins(s.log, sub.start, Reach(sub), |sub.sent|);
  }

  /** The events published by these actions. */
  function Published(actions: seq<Action>): seq<Event> {
    if actions == [] then []
    else (if actions[0].Publish? then [actions[0].ev] else []) + Published(actions[1..])
  }

  lemma {:induction false} RunsConcat(s: State, first: seq<Action>, second: seq<Action>)
    ensures Runs(s, first + second) == Runs(Runs(s, first), second)
    decreases |first|
  {
    if first == [] {
      assert first + second == second;
    } else {
      assert (first + second)[0] == first[0] && (first + second)[1..] == first[1..] + second;
      RunsConcat(Next(s, first[0]), first[1..], second);
    }
  }

  /** Every published event is logged, and a subscription keeps its start. */
  lemma {:induction false} RunsLog(s: State, actions: seq<Action>)
    ensures Runs(s, actions).log == s.log + Published(actions)
    ensures forall id | id in s.subs ::
        id in Runs(s, actions).subs && Runs(s, actions).subs[id].start == s.subs[id].start
    decreases |actions|
  {
    if actions != [] {
      RunsLog(Next(s, actions[0]), actions[1..]);
    }
  }

  /** A new subscriber gets what is published after it subscribed, from the first
      event on: all of it while it stays subscribed, and a gap-free beginning
      afterwards; its client gets a beginning of that. */
  lemma SubscriberGets(before: seq<Action>, id: SubscriberId, after: seq<Action>)
    requires id !in Runs(EMPTY, before).subs
    ensures var s := Runs(EMPTY, before + [Subscribe(id)] + after);
            && id in s.subs
            && s.subs[id].taken + s.subs[id].queue.buffer <= Published(after)
            && (s.subs[id].queue.open ==> s.subs[id].taken + s.subs[id].queue.buffer == Published(after))
            && s.subs[id].sent <= Published(after)
  {
    var all := before + [Subscribe(id)] + after;
    var s0, s1, s := Runs(EMPTY, before), Next(Runs(EMPTY, before), Subscribe(id)), Runs(EMPTY, all);
    RunsConcat(EMPTY, before, [Subscribe(id)]);
    assert Runs(s0, [Subscribe(id)]) == Runs(s1, []);
    RunsConcat(EMPTY, before + [Subscribe(id)], after);
    assert s == Runs(s1, after) && id in s1.subs;
    RunsLog(s1, after);
    assert s.log[s.subs[id].start..] == Published(after);
    StreamLaw(all, id);
    ClientSeesPrefix(all, id);
    assert s.subs[id].sent == Published(after)[..|s.subs[id].sent|];
  }

  /** The publishes that find subscriber `id` 64 events behind. */
  predicate Overflows(s: State, a: Action, id: SubscriberId) {
    a.Publish? && id in s.subs && Lag(s.log, s.subs[id]) >= SUBSCRIBER_BUFFER
  }

  ghost predicate EverOverflows(s: State, actions: seq<Action>, id: SubscriberId)
    decreases |actions|
  {
    actions != [] && (Overflows(s, actions[0], id) || EverOverflows(Next(s, actions[0]), actions[1..], id))
  }

  lemma OpenAfterIff(s: State, a: Action, id: SubscriberId)
    requires Inv(s) && id in s.subs && s.subs[id].queue.open && a != Cancel(id)
    ensures id in Next(s, a).subs
    ensures Next(s, a).subs[id].queue.open <==> !Overflows(s, a, id)
  {
    assert SubscriberOk(s.log, s.subs[id]);
  }

  lemma {:induction false} ClosedStaysClosed(s: State, actions: seq<Action>, id: SubscriberId)
    requires id in s.subs && !s.subs[id].queue.open
    ensures id in Runs(s, actions).subs && !Runs(s, actions).subs[id].queue.open
    decreases |actions|
  {
    if actions != [] {
      ClosedStaysClosed(Next(s, actions[0]), actions[1..], id);
    }
  }

  /** After a subscriber has canceled, nothing more comes to it, whatever is
      published. */
  lemma {:induction false} CanceledGetsNothing(s: State, actions: seq<Action>, id: SubscriberId)
    requires Enabled(s, Cancel(id))
    ensures var s' := Runs(Next(s, Cancel(id)), actions);
            && id in s'.subs && !s'.subs[id].queue.open && s'.subs[id].queue.buffer == s.subs[id].queue.buffer
            && s'.subs[id].(queue := s.subs[id].queue) == s.subs[id]
    decreases |actions|
  {
    if actions != [] {
      var init, last := actions[..|actions| - 1], actions[|actions| - 1];
      assert actions == init + [last];
      CanceledGetsNothing(s, init, id);
      var s1 := Runs(Next(s, Cancel(id)), init);
      RunsConcat(Next(s, Cancel(id)), init, [last]);
      assert Runs(s1, [last]) == Runs(Next(s1, last), []);
    }
  }

  /** The handler writes out what is buffered and then finds the channel closed. */
  function Drain(id: SubscriberId, n: nat): seq<Action> {
    seq(n, _ => Forward(id, true)) + [SeeClosed(id)]
  }

  /** A dropped subscriber whose client goes on reading gets everything that was
      buffered for it, and is then told that it is too slow. */
  lemma {:induction false} DroppedIsTold(s: State, id: SubscriberId)
    requires id in s.subs && s.subs[id].end.None? && !s.subs[id].queue.open
    ensures var s' := Runs(s, Drain(id, |s.subs[id].queue.buffer|));
            && id in s'.subs && s'.subs[id].end == Some(TooSlow)
            && s'.subs[id].sent == s.subs[id].sent + s.subs[id].queue.buffer
    decreases |s.subs[id].queue.buffer|
  {
    var n := |s.subs[id].queue.buffer|;
    var actions := Drain(id, n);
    if n == 0 {
      assert actions[1..] == [];
    } else {
      assert actions[0] == Forward(id, true) && actions[1..] == Drain(id, n - 1);
      DroppedIsTold(Next(s, Forward(id, true)), id);
    }
  }

  /** A subscriber that does not cancel is dropped exactly if some publish finds
      it 64 events behind: over every run, whatever the others do. */
  lemma {:induction false} DroppedExactlyIf(s: State, actions: seq<Action>, id: SubscriberId)
    requires Inv(s) && id in s.subs && s.subs[id].queue.open
    requires forall i | 0 <= i < |actions| :: actions[i] != Cancel(id)
    ensures id in Runs(s, actions).subs
    ensures Runs(s, actions).subs[id].queue.open <==> !EverOverflows(s, actions, id)
    decreases |actions|
  {
    if actions != [] {
      var s' := Next(s, actions[0]);
      NextKeepsInv(s, actions[0]);
      OpenAfterIff(s, actions[0], id);
      if s'.subs[id].queue.open {
        DroppedExactlyIf(s', actions[1..], id);
      } else {
        ClosedStaysClosed(s', actions[1..], id);
      }
    }
  }
}
