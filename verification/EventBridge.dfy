/** One instance's bridge and relay in their mutable form, proved against Fanout. */
module EventBridge {
  import opened Fanout
  import Hub
  import opened HubModel
  import opened RealtimeEvents
  import opened Rooms

  /** What an instance's hub becomes when it applies relay messages one after another. */
  function Received(h: HubState, instance: string, messages: seq<FanoutMessage>): HubState {
    if messages == [] then h
    else DeliverFanout(Received(h, instance, messages[..|messages| - 1]), instance, messages[|messages| - 1])
  }

  /** Deliveries change queues only, so they do not change which sends panic. */
  ghost predicate SameTargets(g: HubState, h: HubState) {
    && g.shut == h.shut && g.rooms == h.rooms && g.conns.Keys == h.conns.Keys
    && forall id :: id in h.conns ==> g.conns[id].open == h.conns[id].open
  }

  lemma SamePanics(g: HubState, h: HubState, room: Room)
    requires SameTargets(g, h)
    ensures Panics(g, DoBroadcast(room, "")) <==> Panics(h, DoBroadcast(room, ""))
  {
    assert Targets(g, DoBroadcast(room, "")) == Targets(h, DoBroadcast(room, ""));
  }

  lemma AnyPayloadPanics(h: HubState, room: Room, p: Payload)
    ensures Panics(h, DoBroadcast(room, p)) <==> Panics(h, DoBroadcast(room, ""))
  {
    assert Targets(h, DoBroadcast(room, p)) == Targets(h, DoBroadcast(room, ""));
  }

  lemma SameHits(g: HubState, h: HubState, users: seq<Uuid>)
    requires SameTargets(g, h)
    ensures Hits(g, users) <==> Hits(h, users)
  {
    forall u | u in users
      ensures Panics(g, DoBroadcast(PaymentsRoom(u), "")) <==> Panics(h, DoBroadcast(PaymentsRoom(u), ""))
    {
      SamePanics(g, h, PaymentsRoom(u));
    }
  }

  lemma {:induction false} DeliverSameTargets(h: HubState, users: seq<Uuid>, p: Payload)
    ensures SameTargets(DeliverTo(h, users, p), h)
  {
    if users != [] { DeliverSameTargets(h, users[..|users| - 1], p); }
  }

  lemma DeliverToNext(h: HubState, users: seq<Uuid>, i: nat, p: Payload)
    requires i < |users|
    ensures DeliverTo(h, users[..i + 1], p) == Broadcast(DeliverTo(h, users[..i], p), PaymentsRoom(users[i]), p)
  {
    assert users[..i + 1][..i] == users[..i];
  }

  class RedisRelay {
    const instanceId: string
    /** What this instance has put on the shared channel. */
    var sent: seq<FanoutMessage>

    constructor (instanceId: string)
      ensures this.instanceId == instanceId && sent == []
    {
      this.instanceId, sent := instanceId, [];
    }

    /** `up` tells whether Redis takes the message; failures are only reported. */
    method Publish(userIds: seq<Uuid>, payload: Payload, up: bool) returns (ok: bool)
      modifies this
      ensures ok == up
      ensures sent == old(sent) + if up then [FanoutMessage(instanceId, NonNil(userIds), payload)] else []
    {
      var ids: seq<string> := [];
      for i := 0 to |userIds|
        invariant ids == NonNil(userIds[..i])
      {
        assert userIds[..i + 1][..i] == userIds[..i];
        if userIds[i] != NIL {
          ids := ids + [userIds[i]];
        }
      }
      assert userIds[..|userIds|] == userIds;
      if !up {
        return false;
      }
      sent := sent + [FanoutMessage(instanceId, ids, payload)];
      return true;
    }

    /** The receive loop: own messages are dropped before they reach the bridge. No foreign one may be for a user whose
        payments room lists a removed client. */
    method Listen(bridge: EventBridge, messages: seq<FanoutMessage>)
      requires bridge.instanceId == instanceId && bridge.Ready()
      requires forall i :: 0 <= i < |messages| && messages[i].origin != instanceId ==> bridge.Reaches(Parse(messages[i].userIds))
      modifies Hub.ChannelsOf(bridge.hub.known)`queue
      ensures bridge.Ready()
      ensures bridge.hub.State() == Received(old(bridge.hub.State()), instanceId, messages)
    {
      ghost var h := bridge.hub.State();
      for i := 0 to |messages|
        invariant bridge.Ready() && SameTargets(bridge.hub.State(), h)
        invariant bridge.hub.State() == Received(h, instanceId, messages[..i])
      {
        assert messages[..i + 1][..i] == messages[..i];
        if messages[i].origin != instanceId {
          SameHits(bridge.hub.State(), h, Unique(Parse(messages[i].userIds)));
          bridge.DeliverFanout(messages[i]);
        }
      }
      assert messages[..|messages|] == messages;
    }
  }

  class EventBridge {
    const hub: Hub.Hub
    const relay: RedisRelay?
    const instanceId: string

    constructor (hub: Hub.Hub, relay: RedisRelay?, instanceId: string)
      ensures this.hub == hub && this.relay == relay && this.instanceId == instanceId
    {
      this.hub, this.relay, this.instanceId := hub, relay, instanceId;
    }

    ghost predicate Ready()
      reads hub, hub.known.Values, Hub.ChannelsOf(hub.known)
    {
      hub.Valid() && Inv(hub.State())
    }

    /** Sending to these users' payments rooms does not panic. */
    ghost predicate Reaches(userIds: seq<Uuid>)
      reads hub, hub.known.Values, Hub.ChannelsOf(hub.known)
    {
      !Hits(hub.State(), Unique(userIds))
    }

    method DeliverToUser(user: Uuid, payload: Payload)
      requires Ready() && user != NIL && !Panics(hub.State(), DoBroadcast(PaymentsRoom(user), ""))
      modifies Hub.ChannelsOf(hub.known)`queue
      ensures Ready()
      ensures hub.State() == Broadcast(old(hub.State()), PaymentsRoom(user), payload)
    {
      ghost var h := hub.State();
      ConstantRooms(NIL, NIL, user);
      var room := BuildUserRoomKey(user, PAYMENTS_CHANNEL);
      if room.Some? {
        DeliverKeeps(h, payload, InRoom(h, room.value));
        AnyPayloadPanics(h, room.value, payload);
        hub.BroadcastRoom(room.value, payload);
      }
    }

    /** Broadcasts to each user's payments room once: every addressed client of this instance is offered the payload
        once and nobody else is. */
    method DeliverToUsers(userIds: seq<Uuid>, payload: Payload)
      requires Ready() && Reaches(userIds)
      modifies Hub.ChannelsOf(hub.known)`queue
      ensures Ready() && SameTargets(hub.State(), old(hub.State()))
      ensures hub.State() == DeliverTo(old(hub.State()), Unique(userIds), payload)
      ensures hub.State() == Delivered(old(hub.State()), Unique(userIds), payload)
    {
      ghost var h := hub.State();
      var users := UniqueUserIds(userIds);
      UniqueMeans(userIds);
      DeliverSameTargets(h, [], payload);
      for i := 0 to |users|
        invariant Ready()
        invariant hub.State() == DeliverTo(h, users[..i], payload)
      {
        assert users[i] in users;
        ghost var front := DeliverTo(h, users[..i], payload);
        DeliverSameTargets(h, users[..i], payload);
        SamePanics(front, h, PaymentsRoom(users[i]));
        DeliverToUser(users[i], payload);
        DeliverToNext(h, users, i, payload);
        assert hub.State() == Broadcast(front, PaymentsRoom(users[i]), payload);
      }
      assert users[..|users|] == users;
      DeliverUnique(h, userIds, payload);
      DeliverSameTargets(h, users, payload);
    }

    /** A message from another instance goes to local clients only and is never published again. */
    method DeliverFanout(msg: FanoutMessage)
      requires Ready() && (msg.origin != instanceId ==> Reaches(Parse(msg.userIds)))
      modifies Hub.ChannelsOf(hub.known)`queue
      ensures Ready() && SameTargets(hub.State(), old(hub.State()))
      ensures hub.State() == Fanout.DeliverFanout(old(hub.State()), instanceId, msg)
    {
      if msg.origin == instanceId {
        return;
      }
      var userIds: seq<Uuid> := [];
      for i := 0 to |msg.userIds|
        invariant userIds == Parse(msg.userIds[..i])
      {
        assert msg.userIds[..i + 1][..i] == msg.userIds[..i];
        if IsUuid(msg.userIds[i]) {
          userIds := userIds + [msg.userIds[i]];
        }
      }
      assert msg.userIds[..|msg.userIds|] == msg.userIds;
      DeliverToUsers(userIds, msg.payload);
    }

    /** The relay, if there is one, gets the message; the hub is not touched. */
    method Relayed(userIds: seq<Uuid>, payload: Payload, up: bool)
      requires hub.Valid()
      modifies if relay == null then {} else {relay}
      ensures hub.Valid() && hub.State() == old(hub.State())
      ensures relay != null ==>
                relay.sent == old(relay.sent) + if up then [FanoutMessage(relay.instanceId, NonNil(userIds), payload)] else []
    {
      if relay != null {
        var _ := relay.Publish(userIds, payload, up);
      }
    }

    /** A payment event is delivered here and handed to the relay, if there is one, once; other events are ignored. */
    method HandlePaymentEvent(event: StatusChanged, payload: Payload, up: bool)
      requires Ready() && (IsPaymentDomainType(event.kind) ==> Reaches(event.userIds))
      modifies Hub.ChannelsOf(hub.known)`queue, if relay == null then {} else {relay}
      ensures Ready()
      ensures hub.State() == if !IsPaymentDomainType(event.kind) then old(hub.State())
                             else Delivered(old(hub.State()), Unique(event.userIds), payload)
      ensures relay != null ==>
                relay.sent == old(relay.sent) + if !IsPaymentDomainType(event.kind) || !up then []
                                                else [FanoutMessage(relay.instanceId, NonNil(event.userIds), payload)]
    {
      if !IsPaymentDomainType(event.kind) {
        return;
      }
      DeliverToUsers(event.userIds, payload);
      Relayed(event.userIds, payload, up);
    }
  }
}
