/** Payment events across server instances: local delivery, the relay between instances, and what any interleaving of
    handlers, listeners and hub operations guarantees. */
module Fanout {
  import opened HubModel
  import opened RealtimeEvents
  import opened Rooms

  // ----- Local delivery -----

  /** One broadcast to the payments room of each user in turn. */
  function DeliverTo(h: HubState, users: seq<Uuid>, p: Payload): HubState {
    if users == [] then h
    else Broadcast(DeliverTo(h, users[..|users| - 1], p), PaymentsRoom(users[|users| - 1]), p)
  }

  /** A connected client of one of the users that is still in its payments room. */
  predicate Addressed(h: HubState, id: string, users: seq<Uuid>) {
    && id in h.clients && id in h.conns
    && h.conns[id].info.userId in users && h.conns[id].info.userId != NIL
    && PaymentsRoom(h.conns[id].info.userId) in h.conns[id].rooms
  }

  function Once(h: HubState, users: seq<Uuid>): string -> nat { id => if Addressed(h, id, users) then 1 else 0 }

  /** One offer to every addressed client and none to anybody else; nothing but queues changes. */
  function Delivered(h: HubState, users: seq<Uuid>, p: Payload): HubState { DeliverAll(h, p, Once(h, users)) }

  /** The payments room of one of the users still lists a removed client: a send to its closed channel panics. */
  predicate Hits(h: HubState, users: seq<Uuid>) {
    exists u :: u in users && Panics(h, DoBroadcast(PaymentsRoom(u), ""))
  }

  lemma CleanNeverHits(h: HubState, users: seq<Uuid>)
    requires Inv(h) && Clean(h)
    ensures !Hits(h, users)
  {
    forall u | u in users
      ensures !Panics(h, DoBroadcast(PaymentsRoom(u), ""))
    {
      CleanNeverPanics(h, DoBroadcast(PaymentsRoom(u), ""));
    }
  }

  lemma RoomIsAddressed(h: HubState, u: Uuid, id: string)
    requires Inv(h) && u != NIL && id in h.conns && !Panics(h, DoBroadcast(PaymentsRoom(u), ""))
    ensures InRoom(h, PaymentsRoom(u))(id) == Once(h, [u])(id)
  {
    var room := PaymentsRoom(u);
    if !h.shut && id in Members(h.rooms, room) {
      assert id in Targets(h, DoBroadcast(room, ""));
      ListedIsKnown(h, room, id);
    }
    if room in OwnRooms(h, id) {
      assert room in RoomsOf(h, id);
      EntitledToPayments(h.conns[id].info, u);
    }
  }

  lemma OnceMore(h: HubState, users: seq<Uuid>, u: Uuid, id: string)
    requires u !in users
    ensures Once(h, users + [u])(id) == Once(h, users)(id) + Once(h, [u])(id)
  {
    if id in h.conns {
      var user := h.conns[id].info.userId;
      assert user in users + [u] <==> user in users || user in [u];
    }
  }

  lemma DeliverTwice(c: Conn, p: Payload, m: nat, n: nat)
    requires m + n <= 1
    ensures Deliver(Deliver(c, p, m), p, n) == Deliver(c, p, m + n)
  {
    assert OfferTimes(c.queue, c.capacity, p, 0) == c.queue;
  }

  lemma DeliverNext(h: HubState, users: seq<Uuid>, u: Uuid, p: Payload)
    requires Inv(h) && u != NIL && u !in users && !Panics(h, DoBroadcast(PaymentsRoom(u), ""))
    ensures Broadcast(Delivered(h, users, p), PaymentsRoom(u), p) == Delivered(h, users + [u], p)
  {
    var h1, room := Delivered(h, users, p), PaymentsRoom(u);
    forall id | id in h.conns
      ensures Broadcast(h1, room, p).conns[id] == Delivered(h, users + [u], p).conns[id]
    {
      RoomIsAddressed(h, u, id);
      OnceMore(h, users, u, id);
      assert InRoom(h1, room)(id) == InRoom(h, room)(id);
      DeliverTwice(h.conns[id], p, Once(h, users)(id), InRoom(h, room)(id));
    }
    assert Broadcast(h1, room, p).conns == Delivered(h, users + [u], p).conns;
  }

  /** Delivery to distinct users, where it does not panic, offers the payload exactly once to every addressed client and
      to nobody else. */
  lemma {:induction false} DeliverOnce(h: HubState, users: seq<Uuid>, p: Payload)
    requires Inv(h) && Distinct(users) && NIL !in users && !Hits(h, users)
    ensures DeliverTo(h, users, p) == Delivered(h, users, p)
  {
    if users == [] {
      forall id | id in h.conns
        ensures Delivered(h, users, p).conns[id] == h.conns[id]
      {
        DeliverTwice(h.conns[id], p, 0, 0);
      }
      assert Delivered(h, users, p).conns == h.conns;
    } else {
      var front, u := users[..|users| - 1], users[|users| - 1];
      assert users == front + [u] && u in users;
      assert NIL !in front && Distinct(front) && u !in front;
      assert !Hits(h, front) && !Panics(h, DoBroadcast(PaymentsRoom(u), ""));
      DeliverOnce(h, front, p);
      DeliverNext(h, front, u, p);
    }
  }

  /** Whatever list of ids an event names, nil and repeated ones included. */
  lemma DeliverUnique(h: HubState, users: seq<Uuid>, p: Payload)
    requires Inv(h) && !Hits(h, Unique(users))
    ensures DeliverTo(h, Unique(users), p) == Delivered(h, Unique(users), p)
    ensures Inv(Delivered(h, Unique(users), p)) && (Clean(Delivered(h, Unique(users), p)) <==> Clean(h))
  {
    UniqueMeans(users);
    DeliverOnce(h, Unique(users), p);
    DeliverKeeps(h, p, Once(h, Unique(users)));
  }

  // ----- The relay -----

  datatype FanoutMessage = FanoutMessage(origin: string, userIds: seq<string>, payload: Payload)

  function NonNil(ids: seq<Uuid>): seq<string> {
    if ids == [] then []
    else NonNil(ids[..|ids| - 1]) + if ids[|ids| - 1] == NIL then [] else [ids[|ids| - 1]]
  }

  /** The ids of a message that are UUIDs; the others are skipped. */
  function Parse(raw: seq<string>): seq<Uuid> {
    if raw == [] then []
    else Parse(raw[..|raw| - 1]) + if IsUuid(raw[|raw| - 1]) then [raw[|raw| - 1]] else []
  }

  lemma {:induction false} ParseNonNil(ids: seq<Uuid>)
    ensures Unique(Parse(NonNil(ids))) == Unique(ids)
  {
    if ids != [] {
      var front, id := ids[..|ids| - 1], ids[|ids| - 1];
      ParseNonNil(front);
      assert NonNil(front) + [] == NonNil(front);
      if id != NIL {
        var raw := NonNil(front) + [id];
        assert raw[..|raw| - 1] == NonNil(front);
        var parsed := Parse(NonNil(front)) + [id];
        assert parsed[..|parsed| - 1] == Parse(NonNil(front));
      }
    }
  }

  // ----- Instances joined by the relay -----

  /** A payment event handled on one instance; `up` tells whether the relay took its message. */
  datatype Handled = Handled(origin: string, users: seq<Uuid>, payload: Payload, up: bool)

  function MessageOf(e: Handled): FanoutMessage { FanoutMessage(e.origin, NonNil(e.users), e.payload) }

  /** DeliverFanout: an instance ignores its own messages. */
  function DeliverFanout(h: HubState, instance: string, msg: FanoutMessage): HubState {
    if msg.origin == instance then h else DeliverTo(h, Unique(Parse(msg.userIds)), msg.payload)
  }

  /** What an instance has done: an event delivered to its clients, or an operation of its hub. */
  datatype Entry = Copy(n: nat, event: Handled) | Own(action: Action)

  /** An instance's hub, the relay messages it has still to receive, as numbers of events, its history, and whether its
      process still runs: a panic ends it. */
  datatype Instance = Instance(hub: HubState, inbox: seq<nat>, log: seq<Entry>, alive: bool)

  datatype System = System(instances: map<string, Instance>, events: seq<Handled>)

  datatype Step =
    | Handle(instance: string, users: seq<Uuid>, payload: Payload, up: bool)
    | Listen(instance: string)
    | HubStep(instance: string, action: Action)

  /** handlePaymentEvent gets past the delivery to its own clients. */
  predicate Handles(x: Instance, users: seq<Uuid>) { x.alive && !Hits(x.hub, Unique(users)) }

  /** handlePaymentEvent on the instance that takes event n from its bus. */
  function TakeEvent(x: Instance, n: nat, e: Handled): Instance {
    x.(hub := DeliverTo(x.hub, Unique(e.users), e.payload), log := x.log + [Copy(n, e)])
  }

  /** Publishing puts the message in the inbox of every running listener, its origin included. */
  function Announced(x: Instance, n: nat, e: Handled): Instance {
    if e.up && x.alive then x.(inbox := x.inbox + [n]) else x
  }

  /** One message from the relay. */
  function TakeMessage(x: Instance, name: string, events: seq<Handled>): Instance {
    if !x.alive || x.inbox == [] || x.inbox[0] >= |events| then x
    else
      var n, e := x.inbox[0], events[x.inbox[0]];
      if e.origin != name && Hits(x.hub, Unique(Parse(MessageOf(e).userIds))) then x.(alive := false)
      else x.(hub := DeliverFanout(x.hub, name, MessageOf(e)), inbox := x.inbox[1..],
              log := if e.origin == name then x.log else x.log + [Copy(n, e)])
  }

  function Act(x: Instance, action: Action): Instance {
    if !x.alive then x
    else if Panics(x.hub, action) then x.(alive := false)
    else x.(hub := HubModel.Apply(x.hub, action), log := x.log + [Own(action)])
  }

  /** A step as instance `name` sees it; `handled` tells whether an event was handled without a panic. */
  function Next(x: Instance, name: string, events: seq<Handled>, step: Step, handled: bool): Instance {
    match step
    case Handle(i, users, payload, up) =>
      var n, e := |events|, Handled(i, users, payload, up);
      if handled then Announced(if i == name then TakeEvent(x, n, e) else x, n, e)
      else if i == name then x.(alive := false) else x
    case Listen(i) => if i == name then TakeMessage(x, name, events) else x
    case HubStep(i, action) => if i == name then Act(x, action) else x
  }

  predicate Recorded(s: System, step: Step) {
    step.Handle? && step.instance in s.instances && Handles(s.instances[step.instance], step.users)
  }

  function Apply(s: System, step: Step): System {
    if step.instance !in s.instances then s
    else System(map j | j in s.instances :: Next(s.instances[j], j, s.events, step, Recorded(s, step)),
                if Recorded(s, step) then s.events + [Handled(step.instance, step.users, step.payload, step.up)] else s.events)
  }

  /** Any number of instances, each with its own connection cap. */
  function Boot(limits: map<string, nat>): System {
    System(map i | i in limits :: Instance(Start(limits[i]), [], [], true), [])
  }

  function After(limits: map<string, nat>, steps: seq<Step>): (s: System)
    ensures s.instances.Keys == limits.Keys
  {
    if steps == [] then Boot(limits) else Apply(After(limits, steps[..|steps| - 1]), steps[|steps| - 1])
  }

  // ----- Exactly once -----

  /** Whether an event concerns an instance: it was handled there, or the relay carried it. */
  predicate Concerns(e: Handled, name: string) { e.origin == name || e.up }

  function Times<T(==)>(xs: seq<T>, x: T): nat { multiset(xs)[x] }

  /** Event n delivered so often, or waiting in the inbox; an instance's own echo does not count. */
  function Account(x: Instance, name: string, n: nat, e: Handled): nat {
    Times(x.log, Copy(n, e)) + if e.origin == name then 0 else Times(x.inbox, n)
  }

  /** The inbox and the history name events that exist. */
  ghost predicate Known(x: Instance, events: seq<Handled>) {
    && (forall k :: 0 <= k < |x.inbox| ==> x.inbox[k] < |events|)
    && (forall k :: 0 <= k < |x.log| && x.log[k].Copy? ==> x.log[k].n < |events| && events[x.log[k].n] == x.log[k].event)
  }

  /** Each event is accounted for once on a running instance that it concerns, and on its own instance even after a
      panic; other instances that have stopped may have missed it. */
  predicate Settled(x: Instance, name: string, n: nat, e: Handled) {
    var due := if Concerns(e, name) then 1 else 0;
    if x.alive || e.origin == name then Account(x, name, n, e) == due else Account(x, name, n, e) <= due
  }

  ghost predicate Balanced(x: Instance, name: string, events: seq<Handled>) {
    forall n :: 0 <= n < |events| ==> Settled(x, name, n, events[n])
  }

  lemma TimesSnoc<T>(xs: seq<T>, y: T, x: T)
    ensures Times(xs + [y], x) == Times(xs, x) + if y == x then 1 else 0
  {
  }

  lemma TimesTail<T>(xs: seq<T>, x: T)
    requires xs != []
    ensures Times(xs, x) == Times(xs[1..], x) + if xs[0] == x then 1 else 0
  {
    assert xs == [xs[0]] + xs[1..];
  }

  lemma TimesAbsent<T>(xs: seq<T>, x: T)
    requires forall k :: 0 <= k < |xs| ==> xs[k] != x
    ensures Times(xs, x) == 0
  {
    assert x !in xs;
  }

  lemma NewEventBalanced(x: Instance, name: string, events: seq<Handled>, e: Handled, n: nat)
    requires Known(x, events) && Balanced(x, name, events) && n <= |events| && (e.origin == name ==> x.alive)
    ensures var m, all := |events|, events + [e];
            Settled(Announced(if e.origin == name then TakeEvent(x, m, e) else x, m, e), name, n, all[n])
  {
    var m, all := |events|, events + [e];
    TimesSnoc(x.log, Copy(m, e), Copy(n, all[n]));
    TimesSnoc(x.inbox, m, n);
    if n < m {
      assert Settled(x, name, n, events[n]);
    } else {
      TimesAbsent(x.log, Copy(m, e));
      TimesAbsent(x.inbox, m);
    }
  }

  lemma MessageBalanced(x: Instance, name: string, events: seq<Handled>, n: nat)
    requires Known(x, events) && Balanced(x, name, events) && n < |events|
    ensures Settled(TakeMessage(x, name, events), name, n, events[n])
  {
    assert Settled(x, name, n, events[n]);
    if x.inbox != [] {
      var m := x.inbox[0];
      TimesTail(x.inbox, n);
      TimesSnoc(x.log, Copy(m, events[m]), Copy(n, events[n]));
    }
  }

  lemma ActBalanced(x: Instance, name: string, events: seq<Handled>, action: Action, n: nat)
    requires Balanced(x, name, events) && n < |events|
    ensures Settled(Act(x, action), name, n, events[n])
  {
    assert Settled(x, name, n, events[n]);
    TimesSnoc(x.log, Own(action), Copy(n, events[n]));
  }

  lemma StepKnown(s: System, step: Step, j: string)
    requires step.instance in s.instances && j in s.instances && Known(s.instances[j], s.events)
    ensures Known(Apply(s, step).instances[j], Apply(s, step).events)
  {
  }

  lemma StepBalanced(s: System, step: Step, j: string)
    requires step.instance in s.instances && j in s.instances
    requires Known(s.instances[j], s.events) && Balanced(s.instances[j], j, s.events)
    ensures Balanced(Apply(s, step).instances[j], j, Apply(s, step).events)
  {
    var x, events, s' := s.instances[j], s.events, Apply(s, step);
    forall n | 0 <= n < |s'.events|
      ensures Settled(s'.instances[j], j, n, s'.events[n])
    {
      if Recorded(s, step) {
        NewEventBalanced(x, j, events, Handled(step.instance, step.users, step.payload, step.up), n);
      } else {
        assert Settled(x, j, n, events[n]);
        match step
        case Handle(i, users, payload, up) =>
        case Listen(i) => MessageBalanced(x, j, events, n);
        case HubStep(i, action) => ActBalanced(x, j, events, action, n);
      }
    }
  }

  // ----- What the hubs have done -----

  /** The hub that an instance's history makes: its own operations, and one offer of each copied event's payload to
      every addressed client. */
  function Replay(limit: nat, log: seq<Entry>): HubState {
    if log == [] then Start(limit) else Redo(Replay(limit, log[..|log| - 1]), log[|log| - 1])
  }

  function Redo(h: HubState, entry: Entry): HubState {
    match entry
    case Copy(_, e) => Delivered(h, Unique(e.users), e.payload)
    case Own(action) => HubModel.Apply(h, action)
  }

  /** No removal in the history left its client in a room. */
  ghost predicate Tidy(limit: nat, log: seq<Entry>) {
    forall k :: 0 <= k < |log| && log[k].Own? ==> !LeavesRooms(Replay(limit, log[..k]), log[k].action)
  }

  /** The hub is what the history makes of it, and as long as no removal left its client in a room the instance runs and
      every broadcast is safe. */
  ghost predicate Replayed(x: Instance, limit: nat) {
    x.hub == Replay(limit, x.log) && Inv(x.hub) && (Tidy(limit, x.log) ==> x.alive && Clean(x.hub))
  }

  lemma ReplayNext(limit: nat, log: seq<Entry>, entry: Entry)
    ensures Replay(limit, log + [entry]) == Redo(Replay(limit, log), entry)
    ensures Tidy(limit, log + [entry]) ==> Tidy(limit, log) && (entry.Own? ==> !LeavesRooms(Replay(limit, log), entry.action))
  {
    var longer := log + [entry];
    assert longer[..|log|] == log;
    if Tidy(limit, longer) {
      forall k | 0 <= k < |log| && log[k].Own?
        ensures !LeavesRooms(Replay(limit, log[..k]), log[k].action)
      {
        assert longer[k] == log[k] && longer[..k] == log[..k];
      }
      assert longer[|log|] == entry;
    }
  }

  lemma CopyReplayed(x: Instance, limit: nat, n: nat, e: Handled)
    requires Replayed(x, limit) && !Hits(x.hub, Unique(e.users))
    ensures Replayed(TakeEvent(x, n, e), limit)
  {
    DeliverUnique(x.hub, e.users, e.payload);
    ReplayNext(limit, x.log, Copy(n, e));
  }

  /** A tidy instance does not panic. */
  lemma HitMeansUntidy(x: Instance, limit: nat, users: seq<Uuid>)
    requires Replayed(x, limit) && Hits(x.hub, users)
    ensures Replayed(x.(alive := false), limit)
  {
    if Tidy(limit, x.log) { CleanNeverHits(x.hub, users); }
  }

  lemma MessageReplayed(x: Instance, name: string, limit: nat, events: seq<Handled>)
    requires Replayed(x, limit)
    ensures Replayed(TakeMessage(x, name, events), limit)
  {
    if x.alive && x.inbox != [] && x.inbox[0] < |events| && events[x.inbox[0]].origin != name {
      var n, e := x.inbox[0], events[x.inbox[0]];
      ParseNonNil(e.users);
      if Hits(x.hub, Unique(e.users)) {
        HitMeansUntidy(x, limit, Unique(e.users));
      } else {
        CopyReplayed(x, limit, n, e);
      }
    }
  }

  lemma ActReplayed(x: Instance, limit: nat, action: Action)
    requires Replayed(x, limit)
    ensures Replayed(Act(x, action), limit)
  {
    if x.alive {
      if Panics(x.hub, action) {
        if Tidy(limit, x.log) { CleanNeverPanics(x.hub, action); }
      } else {
        HubModel.StepKeeps(x.hub, action);
        ReplayNext(limit, x.log, Own(action));
      }
    }
  }

  lemma StepReplayed(s: System, step: Step, j: string, limit: nat)
    requires step.instance in s.instances && j in s.instances && Replayed(s.instances[j], limit)
    ensures Replayed(Apply(s, step).instances[j], limit)
  {
    var x := s.instances[j];
    match step
    case Handle(i, users, payload, up) =>
      if i == j {
        if Handles(x, users) {
          CopyReplayed(x, limit, |s.events|, Handled(i, users, payload, up));
        } else if x.alive {
          HitMeansUntidy(x, limit, Unique(users));
        }
      }
    case Listen(i) => MessageReplayed(x, j, limit, s.events);
    case HubStep(i, action) => ActReplayed(x, limit, action);
  }

  lemma {:induction false} RunIsExact(limits: map<string, nat>, steps: seq<Step>, j: string)
    requires j in limits
    ensures var s := After(limits, steps);
            Known(s.instances[j], s.events) && Balanced(s.instances[j], j, s.events) && Replayed(s.instances[j], limits[j])
  {
    if steps != [] {
      var s, step := After(limits, steps[..|steps| - 1]), steps[|steps| - 1];
      RunIsExact(limits, steps[..|steps| - 1], j);
      if step.instance in s.instances {
        StepKnown(s, step, j);
        StepBalanced(s, step, j);
        StepReplayed(s, step, j, limits[j]);
      }
    }
  }

  /** For any number of instances and any interleaving of handled events, relay messages and hub operations, whatever
      objects removals are given: an instance's hub is what its history makes, and that history has each event once on the
      event's own instance, never from its echo; on another running instance not at all if the relay did not take the
      message, and otherwise once as soon as the message, which is in the inbox at most once, has been received; and on an
      instance that a panic has stopped at most once. */
  lemma DeliveredExactlyOnce(limits: map<string, nat>, steps: seq<Step>, j: string, n: nat)
    requires j in limits && n < |After(limits, steps).events|
    ensures var s := After(limits, steps); var x, e := s.instances[j], s.events[n];
            && x.hub == Replay(limits[j], x.log)
            && Times(x.log, Copy(n, e)) <= 1
            && (e.origin == j ==> Times(x.log, Copy(n, e)) == 1)
            && (x.alive && e.origin != j ==> Times(x.log, Copy(n, e)) == if e.up then 1 - Times(x.inbox, n) else 0)
            && (x.alive && x.inbox == [] ==> Times(x.log, Copy(n, e)) == if Concerns(e, j) then 1 else 0)
  {
    RunIsExact(limits, steps, j);
    var s := After(limits, steps);
    assert Settled(s.instances[j], j, n, s.events[n]);
  }

  // ----- In order -----

  /** The numbers of the events an instance has received from others, in the order of their delivery there. */
  function Arrived(log: seq<Entry>, name: string): seq<nat> {
    if log == [] then []
    else
      var entry := log[|log| - 1];
      Arrived(log[..|log| - 1], name) + if entry.Copy? && entry.event.origin != name then [entry.n] else []
  }

  predicate Rising(ns: seq<nat>) { forall i, j :: 0 <= i < j < |ns| ==> ns[i] < ns[j] }

  ghost predicate InOrder(x: Instance, name: string, count: nat) {
    Rising(Arrived(x.log, name) + x.inbox) && forall n :: n in Arrived(x.log, name) + x.inbox ==> n < count
  }

  lemma ArrivedNext(log: seq<Entry>, entry: Entry, name: string)
    ensures Arrived(log + [entry], name)
            == Arrived(log, name) + if entry.Copy? && entry.event.origin != name then [entry.n] else []
  {
    assert (log + [entry])[..|log|] == log;
  }

  lemma AnnouncedInOrder(x: Instance, name: string, n: nat, e: Handled)
    requires InOrder(x, name, n)
    ensures InOrder(Announced(x, n, e), name, n + 1)
  {
    var ns := Arrived(x.log, name) + x.inbox;
    assert Arrived(x.log, name) + (x.inbox + [n]) == ns + [n];
    assert forall i :: 0 <= i < |ns| ==> ns[i] in ns;
  }

  lemma TakenInOrder(x: Instance, name: string, n: nat, e: Handled)
    requires InOrder(x, name, n) && e.origin == name
    ensures InOrder(TakeEvent(x, n, e), name, n)
  {
    ArrivedNext(x.log, Copy(n, e), name);
    assert Arrived(x.log, name) + [] == Arrived(x.log, name);
  }

  lemma RisingWithout(a: seq<nat>, b: seq<nat>, count: nat)
    requires b != [] && Rising(a + b) && forall n :: n in a + b ==> n < count
    ensures Rising(a + b[1..]) && forall n :: n in a + b[1..] ==> n < count
  {
    var all, rest := a + b, a + b[1..];
    forall i | 0 <= i < |rest|
      ensures rest[i] == all[if i < |a| then i else i + 1]
    {
    }
    forall n | n in rest
      ensures n in all
    {
      var i :| 0 <= i < |rest| && rest[i] == n;
      assert all[if i < |a| then i else i + 1] == n;
    }
  }

  lemma MessageInOrder(x: Instance, name: string, events: seq<Handled>)
    requires InOrder(x, name, |events|)
    ensures InOrder(TakeMessage(x, name, events), name, |events|)
  {
    if x.inbox != [] && x.inbox[0] < |events| {
      var n, e, before := x.inbox[0], events[x.inbox[0]], Arrived(x.log, name);
      ArrivedNext(x.log, Copy(n, e), name);
      assert before + x.inbox == (before + [n]) + x.inbox[1..];
      RisingWithout(before, x.inbox, |events|);
    }
  }

  lemma ActInOrder(x: Instance, name: string, action: Action, count: nat)
    requires InOrder(x, name, count)
    ensures InOrder(Act(x, action), name, count)
  {
    ArrivedNext(x.log, Own(action), name);
    assert Arrived(x.log, name) + [] == Arrived(x.log, name);
  }

  lemma HandledInOrder(x: Instance, name: string, n: nat, e: Handled)
    requires InOrder(x, name, n)
    ensures InOrder(Announced(if e.origin == name then TakeEvent(x, n, e) else x, n, e), name, n + 1)
  {
    if e.origin == name { TakenInOrder(x, name, n, e); }
    AnnouncedInOrder(if e.origin == name then TakeEvent(x, n, e) else x, name, n, e);
  }

  lemma NextInOrder(x: Instance, name: string, events: seq<Handled>, step: Step, handled: bool)
    requires InOrder(x, name, |events|) && (handled ==> step.Handle?)
    ensures InOrder(Next(x, name, events, step, handled), name, |events| + if handled then 1 else 0)
  {
    match step
    case Handle(i, users, payload, up) =>
      if handled { HandledInOrder(x, name, |events|, Handled(i, users, payload, up)); }
    case Listen(i) => MessageInOrder(x, name, events);
    case HubStep(i, action) => ActInOrder(x, name, action, |events|);
  }

  lemma StepInOrder(s: System, step: Step, j: string)
    requires step.instance in s.instances && j in s.instances && InOrder(s.instances[j], j, |s.events|)
    ensures InOrder(Apply(s, step).instances[j], j, |Apply(s, step).events|)
  {
    NextInOrder(s.instances[j], j, s.events, step, Recorded(s, step));
  }

  /** In every run, what the relay carries to an instance is received in the order in which it was handled, and what is
      still to be received comes after what has been. */
  lemma {:induction false} ArrivedInOrder(limits: map<string, nat>, steps: seq<Step>, j: string)
    requires j in limits
    ensures InOrder(After(limits, steps).instances[j], j, |After(limits, steps).events|)
  {
    if steps != [] {
      var s, step := After(limits, steps[..|steps| - 1]), steps[|steps| - 1];
      ArrivedInOrder(limits, steps[..|steps| - 1], j);
      if step.instance in s.instances { StepInOrder(s, step, j); }
    }
  }

  // ----- What can go wrong, and what cannot -----

  /** An instance stops only if one of its removals left a client in a room. */
  lemma StopsOnlyIfLeft(limits: map<string, nat>, steps: seq<Step>, j: string) returns (k: nat)
    requires j in limits && !After(limits, steps).instances[j].alive
    ensures var log := After(limits, steps).instances[j].log;
            k < |log| && log[k].Own? && LeavesRooms(Replay(limits[j], log[..k]), log[k].action)
  {
    RunIsExact(limits, steps, j);
    var log := After(limits, steps).instances[j].log;
    k :| 0 <= k < |log| && log[k].Own? && LeavesRooms(Replay(limits[j], log[..k]), log[k].action);
  }

  /** And the history has nothing that was not handled somewhere. */
  lemma NothingInvented(limits: map<string, nat>, steps: seq<Step>, j: string, entry: Entry)
    requires j in limits && entry in After(limits, steps).instances[j].log && entry.Copy?
    ensures var s := After(limits, steps);
            entry.n < |s.events| && s.events[entry.n] == entry.event && Concerns(entry.event, j)
  {
    RunIsExact(limits, steps, j);
    var s := After(limits, steps);
    var k :| 0 <= k < |s.instances[j].log| && s.instances[j].log[k] == entry;
    assert Settled(s.instances[j], j, entry.n, entry.event);
  }

  /** Receiving never publishes and leaves every other instance alone; an instance that survives it has one message less.
      So ListeningDrains: an instance that keeps listening empties its inbox after as many turns as it has messages. */
  lemma ListenStep(s: System, j: string)
    requires j in s.instances && s.instances[j].inbox != [] && s.instances[j].inbox[0] < |s.events|
    ensures var s' := Apply(s, Listen(j));
            && s'.events == s.events
            && (s'.instances[j].alive ==> s.instances[j].alive && s'.instances[j].inbox == s.instances[j].inbox[1..])
            && s'.instances.Keys == s.instances.Keys
            && forall i :: i in s.instances && i != j ==> s'.instances[i] == s.instances[i]
  {
  }

  /** An instance that listens k times in a row. */
  function ListenTimes(s: System, j: string, k: nat): System {
    if k == 0 then s else Apply(ListenTimes(s, j, k - 1), Listen(j))
  }

  lemma {:induction false} ListeningDrains(s: System, j: string, k: nat)
    requires j in s.instances && Known(s.instances[j], s.events) && k <= |s.instances[j].inbox|
    ensures var s' := ListenTimes(s, j, k);
            && s'.events == s.events
            && s'.instances.Keys == s.instances.Keys
            && (s'.instances[j].alive ==> s'.instances[j].inbox == s.instances[j].inbox[k..])
            && forall i :: i in s.instances && i != j ==> s'.instances[i] == s.instances[i]
  {
    if k > 0 {
      ListeningDrains(s, j, k - 1);
      var s1 := ListenTimes(s, j, k - 1);
      if s1.instances[j].alive {
        ListenStep(s1, j);
        assert s.instances[j].inbox[k - 1..][1..] == s.instances[j].inbox[k..];
      }
    }
  }
}
