/** Which rooms a client is in: what a channel's name means to it, which operations let it in and out, and who is offered
    what as a consequence. */
module Membership {
  import opened HubModel
  import opened Rooms
  import opened Text

  // ----- What a channel's name means to a client -----

  predicate WithApp(info: ClientInfo) { info.orgId != NIL && info.appId != NIL }

  /** White space around a name does not matter, and no name is the default channel's. */
  ghost predicate Spells(text: string, channel: string) {
    || (exists left, right :: AllSpace(left) && AllSpace(right) && text == left + channel + right)
    || (AllSpace(text) && channel == DEFAULT_CHANNEL)
  }

  /** To a client with an organisation and an app a name means its app's room of that channel; to any other client only
      the word "payments" means anything, its user's payments room. */
  ghost predicate Means(info: ClientInfo, text: string, r: Room) {
    if WithApp(info) then exists c :: ChannelName(c) && Spells(text, c) && r == OrgRoom(info.orgId, info.appId, c)
    else text == PAYMENTS_CHANNEL && info.userId != NIL && r == PaymentsRoom(info.userId)
  }

  lemma NameIsTrimmed(c: string)
    requires ChannelName(c)
    ensures TrimSpace(c) == c && c != "" && !AllSpace(c)
  {
    TrimmedIsFixed(c);
  }

  lemma BlankIsSpace(text: string)
    ensures AllSpace(text) <==> TrimSpace(text) == ""
  {
    var left, right := TrimIs(text);
    if AllSpace(text) {
      TrimPads(text, "", "");
      assert text + "" + "" == text;
    }
  }

  lemma SpellsTrimmed(text: string, c: string)
    requires ChannelName(c)
    ensures Spells(text, c) <==> TrimSpace(text) == c || (AllSpace(text) && c == DEFAULT_CHANNEL)
  {
    NameIsTrimmed(c);
    if left, right :| AllSpace(left) && AllSpace(right) && text == left + c + right { TrimPads(left, c, right); }
    var left, right := TrimIs(text);
  }

  lemma RoomKeyMeans(org: Uuid, app: Uuid, text: string, r: Room)
    ensures BuildRoomKey(org, app, text) == Some(r) <==> exists c :: ChannelName(c) && Spells(text, c) && r == OrgRoom(org, app, c)
  {
    BlankIsSpace(text);
    var name := if TrimSpace(text) == "" then DEFAULT_CHANNEL else TrimSpace(text);
    if ChannelName(name) { SpellsTrimmed(text, name); }
    forall c | ChannelName(c) && Spells(text, c)
      ensures c == name
    {
      SpellsTrimmed(text, c);
      NameIsTrimmed(c);
    }
  }

  /** The room a name is resolved to is the room it means, and it is refused exactly if it means none. */
  lemma RoomForMeans(info: ClientInfo, text: string, r: Room)
    ensures RoomFor(info, text) == Some(r) <==> Means(info, text, r)
  {
    RoomKeyMeans(info.orgId, info.appId, text, r);
    ConstantRooms(info.orgId, info.appId, info.userId);
  }

  /** The names that are available to a client. */
  ghost predicate Available(info: ClientInfo, text: string) {
    if WithApp(info) then AllSpace(text) || ChannelName(TrimSpace(text)) else text == PAYMENTS_CHANNEL && info.userId != NIL
  }

  lemma AvailableIff(info: ClientInfo, text: string)
    ensures RoomFor(info, text).Some? <==> Available(info, text)
  {
    BlankIsSpace(text);
    ConstantRooms(info.orgId, info.appId, info.userId);
  }

  // ----- Coming and going -----

  /** The rooms a new client starts in. */
  ghost predicate Starts(info: ClientInfo, r: Room) {
    || (WithApp(info) && r == OrgRoom(info.orgId, info.appId, "events"))
    || (info.userId != NIL && r == UserRoom(info.userId, "payments"))
  }

  /** An operation that lets a client into a room. */
  ghost predicate Enters(h: HubState, a: Action, id: string, r: Room) {
    || (a.DoRegister? && a.info.id == id && id !in h.conns && Admits(h) && Starts(a.info, r))
    || (a.DoSubscribe? && a.id == id && id in h.clients && id in h.conns && Means(h.conns[id].info, a.channel, r))
  }

  /** An operation that takes a connected client out of a room. */
  ghost predicate Exits(h: HubState, a: Action, id: string, r: Room) {
    || (a.DoUnsubscribe? && a.id == id && id in h.conns && Means(h.conns[id].info, a.channel, r))
    || ((a.DoUnregister? || a.DoRemove?) && a.id == id)
    || a.DoClose?
  }

  function AsSet(room: Option<Room>): set<Room> { if room.Some? then {room.value} else {} }

  lemma StartingRooms(info: ClientInfo, r: Room)
    ensures r in AsSet(DefaultRoom(info)) + AsSet(OwnPaymentsRoom(info)) <==> Starts(info, r)
  {
    ConstantRooms(info.orgId, info.appId, info.userId);
  }

  /** A new client's rooms after its registration; nobody else's change. */
  lemma RegisteredConns(h: HubState, info: ClientInfo, capacity: nat)
    requires Admits(h) && info.id !in h.conns
    ensures var h' := Register(h, info, [], capacity);
            && h'.clients == h.clients + {info.id} && h'.conns.Keys == h.conns.Keys + {info.id}
            && (forall id :: id in h.conns ==> h'.conns[id] == h.conns[id])
            && h'.conns[info.id].rooms == AsSet(DefaultRoom(info)) + AsSet(OwnPaymentsRoom(info))
  {
    var h1 := Connect(h, info, [], capacity);
    ConnectedConns(h, info, capacity);
    JoinTwice(h1, info.id, DefaultRoom(info), OwnPaymentsRoom(info));
  }

  lemma ConnectedConns(h: HubState, info: ClientInfo, capacity: nat)
    ensures var h' := Connect(h, info, [], capacity);
            && h'.clients == h.clients + {info.id} && h'.conns.Keys == h.conns.Keys + {info.id}
            && (forall id :: id in h.conns && id != info.id ==> h'.conns[id] == h.conns[id])
            && h'.conns[info.id].rooms == {}
  {
  }

  lemma JoinTwice(h: HubState, id: string, a: Option<Room>, b: Option<Room>)
    requires id in h.conns && h.conns[id].rooms == {}
    ensures var h' := JoinIf(JoinIf(h, id, a), id, b);
            && h'.clients == h.clients && h'.conns.Keys == h.conns.Keys
            && (forall other :: other in h.conns && other != id ==> h'.conns[other] == h.conns[other])
            && h'.conns[id].rooms == AsSet(a) + AsSet(b)
  {
    JoinIfConns(h, id, a);
    JoinIfConns(JoinIf(h, id, a), id, b);
  }

  lemma JoinIfConns(h: HubState, id: string, room: Option<Room>)
    requires id in h.conns
    ensures var h', c := JoinIf(h, id, room), h.conns[id];
            && h'.clients == h.clients
            && h'.conns == h.conns[id := c.(rooms := c.rooms + AsSet(room))]
  {
    assert h.conns[id].rooms + {} == h.conns[id].rooms;
  }

  lemma RegisterEnters(h: HubState, info: ClientInfo, capacity: nat, id: string, r: Room)
    requires h.clients <= h.conns.Keys && info.id !in h.conns
    ensures r in OwnRooms(Register(h, info, [], capacity), id)
            <==> r in OwnRooms(h, id) || (id == info.id && Admits(h) && Starts(info, r))
  {
    if Admits(h) {
      RegisteredConns(h, info, capacity);
      StartingRooms(info, r);
      Grown(h, Register(h, info, [], capacity), info.id, id);
    }
  }

  lemma Grown(h: HubState, h': HubState, newcomer: string, id: string)
    requires h.clients <= h.conns.Keys && newcomer !in h.conns
    requires h'.clients == h.clients + {newcomer} && h'.conns.Keys == h.conns.Keys + {newcomer}
    requires forall k :: k in h.conns ==> h'.conns[k] == h.conns[k]
    ensures OwnRooms(h', id) == if id == newcomer then h'.conns[id].rooms else OwnRooms(h, id)
    ensures id == newcomer ==> OwnRooms(h, id) == {}
  {
  }

  lemma SubscribeEnters(h: HubState, who: string, text: string, id: string, r: Room)
    requires Inv(h)
    ensures r in OwnRooms(Subscribe(h, who, text), id)
            <==> r in OwnRooms(h, id) || (id == who && id in h.clients && Means(h.conns[id].info, text, r))
  {
    if who in h.clients { RoomForMeans(h.conns[who].info, text, r); }
  }

  lemma UnsubscribeExits(h: HubState, who: string, text: string, id: string, r: Room)
    requires Inv(h)
    ensures r in OwnRooms(Unsubscribe(h, who, text), id)
            <==> r in OwnRooms(h, id) && !(id == who && Means(h.conns[id].info, text, r))
  {
    if who in h.clients { RoomForMeans(h.conns[who].info, text, r); }
  }

  lemma RestStays(h: HubState, a: Action, id: string, r: Room)
    requires Inv(h) && !a.DoRegister? && !a.DoSubscribe? && !a.DoUnsubscribe?
    ensures r in OwnRooms(Apply(h, a), id) <==> r in OwnRooms(h, id) && !Exits(h, a, id, r)
  {
  }

  /** After any operation a connected client is in a room exactly if the operation lets it in, or it was in and the operation
      does not take it out: no operation adds or drops another membership. */
  lemma StepMembership(h: HubState, a: Action, id: string, r: Room)
    requires Inv(h)
    ensures r in OwnRooms(Apply(h, a), id) <==> Enters(h, a, id, r) || (r in OwnRooms(h, id) && !Exits(h, a, id, r))
  {
    match a
    case DoRegister(info, capacity) => if info.id !in h.conns { RegisterEnters(h, info, capacity, id, r); }
    case DoSubscribe(who, text) => SubscribeEnters(h, who, text, id, r);
    case DoUnsubscribe(who, text) => UnsubscribeExits(h, who, text, id, r);
    case _ => RestStays(h, a, id, r);
  }

  /** Membership by history: the last operation that concerned it let the client in. */
  ghost predicate Joined(limit: nat, actions: seq<Action>, id: string, r: Room) {
    actions != []
    && var front, a := actions[..|actions| - 1], actions[|actions| - 1];
       || Enters(After(limit, front), a, id, r)
       || (Joined(limit, front, id, r) && !Exits(After(limit, front), a, id, r))
  }

  /** In every run a client is in exactly the rooms it has joined and not left since. */
  lemma {:induction false} MembersJoined(limit: nat, actions: seq<Action>, id: string, r: Room)
    ensures r in OwnRooms(After(limit, actions), id) <==> Joined(limit, actions, id, r)
    ensures id in After(limit, actions).clients ==>
              (id in Members(After(limit, actions).rooms, r) <==> Joined(limit, actions, id, r))
  {
    RunKeeps(limit, actions);
    if actions != [] {
      var front := actions[..|actions| - 1];
      RunKeeps(limit, front);
      MembersJoined(limit, front, id, r);
      StepMembership(After(limit, front), actions[|actions| - 1], id, r);
    }
    var h := After(limit, actions);
    if id in h.clients { assert r in RoomsOf(h, id) <==> r in OwnRooms(h, id); }
  }

  // ----- Who is offered what -----

  /** A client that has subscribed to a channel of its app is in that channel's room, in no other room than before, and is
      offered the organisation's next payload for the channel once. */
  lemma SubscribedIsReached(h: HubState, id: string, c: string, p: Payload)
    requires Inv(h) && id in h.clients && WithApp(h.conns[id].info) && ChannelName(c)
    ensures var info, h' := h.conns[id].info, Subscribe(h, id, c);
            && OwnRooms(h', id) == OwnRooms(h, id) + {OrgRoom(info.orgId, info.appId, c)}
            && id in h'.clients
            && var was := h'.conns[id];
               BroadcastToOrganization(h', info.orgId, c, p).conns[id] == was.(queue := Offer(was.queue, was.capacity, p))
  {
    var info, h' := h.conns[id].info, Subscribe(h, id, c);
    NameMeans(info, c);
    StepKeeps(h, DoSubscribe(id, c));
    OrganizationReachesMembers(h', info.orgId, c, p, id);
  }

  lemma NameMeans(info: ClientInfo, c: string)
    requires WithApp(info) && ChannelName(c)
    ensures RoomFor(info, c) == Some(OrgRoom(info.orgId, info.appId, c)) && NoColon(c)
  {
    NameIsTrimmed(c);
  }

  /** A client that has unsubscribed from it is out of that room and no other, and is not offered the payload. */
  lemma UnsubscribedIsNot(h: HubState, id: string, c: string, p: Payload)
    requires Inv(h) && id in h.clients && WithApp(h.conns[id].info) && ChannelName(c)
    ensures var info, h' := h.conns[id].info, Unsubscribe(h, id, c);
            && OwnRooms(h', id) == OwnRooms(h, id) - {OrgRoom(info.orgId, info.appId, c)}
            && id in h'.clients
            && BroadcastToOrganization(h', info.orgId, c, p).conns[id] == h'.conns[id]
  {
    var info, h' := h.conns[id].info, Unsubscribe(h, id, c);
    NameMeans(info, c);
    StepKeeps(h, DoUnsubscribe(id, c));
    OrganizationReachesMembers(h', info.orgId, c, p, id);
  }

  /** An operation that offers a payload to a client: a broadcast to a room that lists it, or a send to it. */
  predicate Offers(h: HubState, a: Action, id: string, p: Payload) {
    && !h.shut
    && match a
       case DoBroadcast(room, q) => q == p && id in Members(h.rooms, room)
       case DoSend(other, q) => q == p && other == id && id in h.clients
       case _ => false
  }

  /** What an operation does to a queue: a payload goes to the end if there is room and is dropped otherwise, a client
      takes the first one, and nothing else happens. */
  lemma QueueStep(h: HubState, a: Action, id: string)
    requires Inv(h) && id in h.conns && !a.DoBroadcastToOrganization?
    ensures id in Apply(h, a).conns
    ensures var c, queue := h.conns[id], Apply(h, a).conns[id].queue;
            if (a.DoBroadcast? || a.DoSend?) && Offers(h, a, id, a.p) && |c.queue| < c.capacity then queue == c.queue + [a.p]
            else if a == DoReceive(id) && c.queue != [] then [c.queue[0]] + queue == c.queue
            else queue == c.queue
  {
    var c := h.conns[id];
    if a.DoBroadcast? || a.DoSend? {
      assert OfferTimes(c.queue, c.capacity, a.p, 1) == Offer(c.queue, c.capacity, a.p);
      assert OfferTimes(c.queue, c.capacity, a.p, 0) == c.queue;
    }
  }

  lemma {:induction false} OffersFit(queue: seq<Payload>, capacity: nat, p: Payload, n: nat)
    requires |queue| <= capacity
    ensures |OfferTimes(queue, capacity, p, n)| <= capacity
  {
    if n > 0 { OffersFit(queue, capacity, p, n - 1); }
  }

  ghost predicate QueuesFit(h: HubState) { forall id :: id in h.conns ==> |h.conns[id].queue| <= h.conns[id].capacity }

  lemma DeliveredFit(h: HubState, p: Payload, times: string -> nat)
    requires QueuesFit(h)
    ensures QueuesFit(DeliverAll(h, p, times))
  {
    forall id | id in h.conns
      ensures |DeliverAll(h, p, times).conns[id].queue| <= h.conns[id].capacity
    {
      OffersFit(h.conns[id].queue, h.conns[id].capacity, p, times(id));
    }
  }

  lemma RegisteredFit(h: HubState, info: ClientInfo, capacity: nat)
    requires QueuesFit(h) && info.id !in h.conns
    ensures QueuesFit(Register(h, info, [], capacity))
  {
    if Admits(h) {
      var h1 := Connect(h, info, [], capacity);
      var h2 := JoinIf(h1, info.id, DefaultRoom(info));
      assert QueuesFit(h1) && QueuesFit(h2);
    }
  }

  lemma QueuesStayFit(h: HubState, a: Action)
    requires QueuesFit(h) && !a.DoBroadcast? && !a.DoBroadcastToOrganization? && !a.DoSend? && !a.DoRegister?
    ensures QueuesFit(Apply(h, a))
  {
    var h' := Apply(h, a);
    forall id | id in h'.conns
      ensures |h'.conns[id].queue| <= h'.conns[id].capacity
    {
      if id in h.conns { assert |h.conns[id].queue| <= h.conns[id].capacity; }
    }
  }

  /** In every run no queue outgrows its channel. */
  lemma {:induction false} QueuesBounded(limit: nat, actions: seq<Action>)
    ensures QueuesFit(After(limit, actions))
  {
    if actions != [] {
      var h, a := After(limit, actions[..|actions| - 1]), actions[|actions| - 1];
      QueuesBounded(limit, actions[..|actions| - 1]);
      match a
      case DoBroadcast(room, p) => DeliveredFit(h, p, InRoom(h, room));
      case DoBroadcastToOrganization(org, channel, p) => DeliveredFit(h, p, InMatching(h, org, channel));
      case DoSend(id, p) => DeliveredFit(h, p, Only(h, id));
      case DoRegister(info, capacity) => if info.id !in h.conns { RegisteredFit(h, info, capacity); }
      case _ => QueuesStayFit(h, a);
    }
  }

  /** The channels an action is said to send to are exactly those it offers its payload on. */
  lemma TargetsAreOffered(h: HubState, a: Action, id: string)
    requires id in h.conns
    ensures a.DoBroadcast? ==> (id in Targets(h, a) <==> InRoom(h, a.room)(id) == 1)
    ensures a.DoBroadcastToOrganization? ==> (id in Targets(h, a) <==> InMatching(h, a.org, a.channel)(id) > 0)
    ensures a.DoSend? ==> (id in Targets(h, a) <==> Only(h, a.id)(id) == 1)
  {
    if a.DoBroadcastToOrganization? && !h.shut {
      var rooms := MatchingRooms(h, a.org, a.channel, id);
      if id in Targets(h, a) {
        var r :| r in h.rooms && InOrganization(r, a.org, a.channel) && id in h.rooms[r];
        assert r in rooms;
      }
      if |rooms| > 0 {
        var r :| r in rooms;
        assert id in Targets(h, a);
      }
    }
  }
}
