/** The hub as a value: every operation as a function on the hub's state, and what every run of operations keeps. */
module HubModel {
  import opened Text
  import opened Rooms

  type Payload = string

  datatype ClientInfo = ClientInfo(id: string, userId: Uuid, orgId: Uuid, appId: Uuid)

  /** A connection that was registered at some time: its own room set, and its send channel. */
  datatype Conn = Conn(info: ClientInfo, rooms: set<Room>, queue: seq<Payload>, capacity: nat, open: bool)

  /** `clients` are the connected ids, `rooms` the hub's index; `conns` also remembers disconnected clients. */
  datatype HubState = HubState(
    limit: nat, shut: bool, clients: set<string>, rooms: map<Room, set<string>>, conns: map<string, Conn>, gauge: int)

  function Start(limit: nat): HubState { HubState(limit, false, {}, map[], map[], 0) }

  // ----- Channels -----

  /** The non-blocking send: a full queue drops the payload. */
  function Offer(queue: seq<Payload>, capacity: nat, p: Payload): seq<Payload> {
    if |queue| < capacity then queue + [p] else queue
  }

  function OfferTimes(queue: seq<Payload>, capacity: nat, p: Payload, n: nat): seq<Payload> {
    if n == 0 then queue else Offer(OfferTimes(queue, capacity, p, n - 1), capacity, p)
  }

  // ----- Room membership -----

  function Members(rooms: map<Room, set<string>>, room: Room): set<string> {
    if room in rooms then rooms[room] else {}
  }

  function Join(h: HubState, id: string, room: Room): HubState
    requires id in h.conns
  {
    h.(rooms := h.rooms[room := Members(h.rooms, room) + {id}],
       conns := h.conns[id := h.conns[id].(rooms := h.conns[id].rooms + {room})])
  }

  /** Taking an id out of the given rooms; a room left empty is deleted. */
  function Sweep(rooms: map<Room, set<string>>, id: string, sweep: set<Room>): map<Room, set<string>> {
    map r | r in rooms && !(r in sweep && rooms[r] - {id} == {}) :: if r in sweep then rooms[r] - {id} else rooms[r]
  }

  function Leave(h: HubState, id: string, room: Room): HubState
    requires id in h.conns
  {
    h.(rooms := Sweep(h.rooms, id, {room}),
       conns := h.conns[id := h.conns[id].(rooms := h.conns[id].rooms - {room})])
  }

  /** The room a client's channel name stands for: without an app only the user's own payments room is available. */
  function RoomFor(info: ClientInfo, channel: string): Option<Room> {
    if info.orgId == NIL || info.appId == NIL then
      if channel != PAYMENTS_CHANNEL then None else BuildUserRoomKey(info.userId, PAYMENTS_CHANNEL)
    else BuildRoomKey(info.orgId, info.appId, channel)
  }

  // ----- Operations -----

  function JoinIf(h: HubState, id: string, room: Option<Room>): HubState
    requires id in h.conns
  {
    match room
    case None => h
    case Some(r) => Join(h, id, r)
  }

  function DefaultRoom(info: ClientInfo): Option<Room> {
    if info.orgId != NIL && info.appId != NIL then BuildRoomKey(info.orgId, info.appId, DEFAULT_CHANNEL) else None
  }

  function OwnPaymentsRoom(info: ClientInfo): Option<Room> {
    if info.userId != NIL then BuildUserRoomKey(info.userId, PAYMENTS_CHANNEL) else None
  }

  predicate Admits(h: HubState) { !h.shut && |h.clients| < h.limit }

  function Register(h: HubState, info: ClientInfo, queue: seq<Payload>, capacity: nat): HubState {
    if !Admits(h) then h
    else
      var h1 := Connect(h, info, queue, capacity);
      JoinIf(JoinIf(h1, info.id, DefaultRoom(info)), info.id, OwnPaymentsRoom(info))
  }

  function ClientRoom(h: HubState, id: string, channel: string): Option<Room> {
    if id in h.clients && id in h.conns then RoomFor(h.conns[id].info, channel) else None
  }

  function Subscribe(h: HubState, id: string, channel: string): HubState {
    match ClientRoom(h, id, channel)
    case None => h
    case Some(r) => Join(h, id, r)
  }

  function Unsubscribe(h: HubState, id: string, channel: string): HubState {
    match ClientRoom(h, id, channel)
    case None => h
    case Some(r) => Leave(h, id, r)
  }

  /** removeClient with a client object whose own room set is `sweep`: the sweep walks the argument's set. */
  function Remove(h: HubState, id: string, sweep: set<Room>): HubState {
    if id !in h.clients || id !in h.conns then h
    else h.(clients := h.clients - {id}, gauge := h.gauge - 1,
            rooms := Sweep(h.rooms, id, sweep), conns := h.conns[id := h.conns[id].(open := false)])
  }

  /** The given connections with their channels closed. */
  function Shut(conns: map<string, Conn>, ids: set<string>): map<string, Conn> {
    map id | id in conns :: if id in ids then conns[id].(open := false) else conns[id]
  }

  function Close(h: HubState): HubState {
    h.(shut := true, gauge := h.gauge - |h.clients|, clients := {}, rooms := map[], conns := Shut(h.conns, h.clients))
  }

  function Deliver(conn: Conn, p: Payload, n: nat): Conn {
    conn.(queue := OfferTimes(conn.queue, conn.capacity, p, n))
  }

  /** Each connection is offered the payload as many times as `times` says. */
  function DeliverAll(h: HubState, p: Payload, times: string -> nat): HubState {
    h.(conns := map id | id in h.conns :: Deliver(h.conns[id], p, times(id)))
  }

  /** The ids in one room, and in how many matching rooms an id is. */
  function InRoom(h: HubState, room: Room): string -> nat {
    id => if !h.shut && id in Members(h.rooms, room) then 1 else 0
  }

  function MatchingRooms(h: HubState, org: Uuid, channel: string, id: string): set<Room> {
    set r | r in h.rooms && InOrganization(r, org, channel) && id in h.rooms[r]
  }

  function InMatching(h: HubState, org: Uuid, channel: string): string -> nat {
    id => if h.shut then 0 else |MatchingRooms(h, org, channel, id)|
  }

  function Only(h: HubState, id: string): string -> nat {
    other => if other == id && id in h.clients && !h.shut then 1 else 0
  }

  function Broadcast(h: HubState, room: Room, p: Payload): HubState { DeliverAll(h, p, InRoom(h, room)) }

  function BroadcastToOrganization(h: HubState, org: Uuid, channel: string, p: Payload): HubState {
    DeliverAll(h, p, InMatching(h, org, channel))
  }

  function SendToClient(h: HubState, id: string, p: Payload): HubState { DeliverAll(h, p, Only(h, id)) }

  /** The write pump takes one payload off a queue. */
  function Receive(h: HubState, id: string): HubState {
    if id in h.conns && h.conns[id].queue != [] then
      h.(conns := h.conns[id := h.conns[id].(queue := h.conns[id].queue[1..])])
    else h
  }

  // ----- The invariant -----

  /** A client may be in its user's payments room and in rooms of its own organisation and app, and nowhere else. */
  ghost predicate Entitled(info: ClientInfo, r: Room) {
    || (info.userId != NIL && r == PaymentsRoom(info.userId))
    || (info.orgId != NIL && info.appId != NIL && exists c :: ChannelName(c) && r == OrgRoom(info.orgId, info.appId, c))
  }

  /** A connection's own room set, which it keeps when it is removed. */
  function RoomsOf(h: HubState, id: string): set<Room> { if id in h.conns then h.conns[id].rooms else {} }

  function OwnRooms(h: HubState, id: string): set<Room> {
    if id in h.clients && id in h.conns then h.conns[id].rooms else {}
  }

  /** The index from rooms to clients lists every connected client in its own rooms, and nobody anywhere else. */
  ghost predicate Indexed(h: HubState) {
    && (forall r, id :: id in h.clients && r in RoomsOf(h, id) ==> id in Members(h.rooms, r))
    && (forall r, id :: id in Members(h.rooms, r) ==> r in RoomsOf(h, id))
  }

  ghost predicate NoEmptyRoom(h: HubState) { forall r :: r in h.rooms ==> h.rooms[r] != {} }

  ghost predicate OnlyEntitled(h: HubState) {
    forall id, r :: r in RoomsOf(h, id) ==> id in h.conns && Entitled(h.conns[id].info, r)
  }

  /** The cap holds, the gauge counts the clients, and the open channels are those of the connected clients. */
  ghost predicate Connections(h: HubState) {
    && h.clients <= h.conns.Keys
    && (forall id :: id in h.conns ==> h.conns[id].info.id == id)
    && (forall id :: id in h.conns ==> (h.conns[id].open <==> id in h.clients))
    && |h.clients| <= h.limit
    && h.gauge == |h.clients|
    && (h.shut ==> h.clients == {} && h.rooms == map[])
  }

  /** What holds whatever object a removal is given. */
  ghost predicate Inv(h: HubState) {
    Indexed(h) && NoEmptyRoom(h) && OnlyEntitled(h) && Connections(h)
  }

  /** No room lists a client that has been removed. */
  ghost predicate Clean(h: HubState) { forall r, id :: id in Members(h.rooms, r) ==> id in h.clients }

  /** The index from rooms to clients and the clients' own room sets agree. */
  ghost predicate IndexesAgree(h: HubState) {
    forall r, id :: id in Members(h.rooms, r) <==> r in OwnRooms(h, id)
  }

  /** Every room lists only clients whose channel is open, so that every broadcast sends to open channels only. */
  ghost predicate Sendable(h: HubState) {
    forall r, id :: id in Members(h.rooms, r) ==> id in h.conns && h.conns[id].open
  }

  lemma ListedIsKnown(h: HubState, r: Room, id: string)
    requires Indexed(h) && id in Members(h.rooms, r)
    ensures r in RoomsOf(h, id) && id in h.conns && r in h.conns[id].rooms
  {
  }

  /** Three ways to say the same: no removed client is listed, the two indexes agree, every listed channel is open. */
  lemma CleanMeans(h: HubState)
    requires Inv(h)
    ensures Clean(h) <==> IndexesAgree(h)
    ensures Clean(h) <==> Sendable(h)
  {
    if IndexesAgree(h) {
      forall r, id | id in Members(h.rooms, r)
        ensures id in h.clients
      {
        assert r in OwnRooms(h, id);
      }
    }
    forall r, id | id in Members(h.rooms, r)
      ensures id in h.conns && r in RoomsOf(h, id)
    {
      ListedIsKnown(h, r, id);
    }
    forall r, id | r in OwnRooms(h, id)
      ensures id in Members(h.rooms, r)
    {
      assert r in RoomsOf(h, id);
    }
  }

  lemma SweptMembers(rooms: map<Room, set<string>>, id: string, sweep: set<Room>)
    ensures forall r :: Members(Sweep(rooms, id, sweep), r)
                     == if r in sweep then Members(rooms, r) - {id} else Members(rooms, r)
  {
  }

  lemma JoinIndexed(h: HubState, id: string, room: Room)
    requires Indexed(h) && id in h.clients && id in h.conns
    ensures Indexed(Join(h, id, room))
  {
    var h' := Join(h, id, room);
    assert forall k :: RoomsOf(h', k) == if k == id then RoomsOf(h, k) + {room} else RoomsOf(h, k);
    assert forall r :: Members(h'.rooms, r) == if r == room then Members(h.rooms, r) + {id} else Members(h.rooms, r);
  }

  lemma JoinKeeps(h: HubState, id: string, room: Room)
    requires Inv(h) && id in h.clients && Entitled(h.conns[id].info, room)
    ensures Inv(Join(h, id, room))
  {
    var h' := Join(h, id, room);
    JoinIndexed(h, id, room);
    assert forall k :: RoomsOf(h', k) == if k == id then RoomsOf(h, k) + {room} else RoomsOf(h, k);
    assert OnlyEntitled(h');
  }

  lemma LeaveKeeps(h: HubState, id: string, room: Room)
    requires Inv(h) && id in h.clients
    ensures Inv(Leave(h, id, room))
  {
    var h' := Leave(h, id, room);
    SweptMembers(h.rooms, id, {room});
    assert forall k :: RoomsOf(h', k) == if k == id then RoomsOf(h, k) - {room} else RoomsOf(h, k);
    assert Indexed(h');
    assert OnlyEntitled(h');
  }

  /** Where a hub lists the same ids up to one that is connected, it is as clean. */
  lemma SameClean(h: HubState, h': HubState, id: string)
    requires id in h'.clients
    requires forall k :: k != id ==> (k in h'.clients <==> k in h.clients)
    requires forall r, k :: k != id ==> (k in Members(h'.rooms, r) <==> k in Members(h.rooms, r))
    requires forall r :: id in Members(h.rooms, r) ==> id in h.clients
    ensures Clean(h') <==> Clean(h)
  {
    if Clean(h) {
      forall r, k | k in Members(h'.rooms, r)
        ensures k in h'.clients
      {
        if k != id { assert k in Members(h.rooms, r); }
      }
    }
    if Clean(h') {
      forall r, k | k in Members(h.rooms, r)
        ensures k in h.clients
      {
        if k != id { assert k in Members(h'.rooms, r); }
      }
    }
  }

  lemma JoinClean(h: HubState, id: string, room: Room)
    requires id in h.clients && id in h.conns
    ensures Clean(Join(h, id, room)) <==> Clean(h)
  {
    SameClean(h, Join(h, id, room), id);
  }

  lemma LeaveClean(h: HubState, id: string, room: Room)
    requires id in h.clients && id in h.conns
    ensures Clean(Leave(h, id, room)) <==> Clean(h)
  {
    SweptMembers(h.rooms, id, {room});
    SameClean(h, Leave(h, id, room), id);
  }

  lemma ConnectClean(h: HubState, info: ClientInfo, queue: seq<Payload>, capacity: nat)
    requires Indexed(h) && info.id !in h.conns
    ensures Clean(Connect(h, info, queue, capacity)) <==> Clean(h)
  {
    forall r
      ensures info.id !in Members(h.rooms, r)
    {
      if info.id in Members(h.rooms, r) { ListedIsKnown(h, r, info.id); }
    }
    SameClean(h, Connect(h, info, queue, capacity), info.id);
  }

  lemma RoomForIsEntitled(info: ClientInfo, channel: string)
    ensures RoomFor(info, channel).Some? ==> Entitled(info, RoomFor(info, channel).value)
    ensures DefaultRoom(info).Some? ==> Entitled(info, DefaultRoom(info).value)
    ensures OwnPaymentsRoom(info).Some? ==> Entitled(info, OwnPaymentsRoom(info).value)
  {
    ConstantRooms(info.orgId, info.appId, info.userId);
  }

  function Connect(h: HubState, info: ClientInfo, queue: seq<Payload>, capacity: nat): HubState {
    h.(clients := h.clients + {info.id}, conns := h.conns[info.id := Conn(info, {}, queue, capacity, true)],
       gauge := h.gauge + 1)
  }

  lemma ConnectKeeps(h: HubState, info: ClientInfo, queue: seq<Payload>, capacity: nat)
    requires Inv(h) && info.id !in h.conns && Admits(h)
    ensures Inv(Connect(h, info, queue, capacity))
  {
    var h' := Connect(h, info, queue, capacity);
    assert forall k :: RoomsOf(h', k) == RoomsOf(h, k);
    assert Indexed(h');
    assert OnlyEntitled(h');
    assert Connections(h');
  }

  lemma JoinIfKeeps(h: HubState, id: string, room: Option<Room>)
    requires Inv(h) && id in h.clients && (room.Some? ==> Entitled(h.conns[id].info, room.value))
    ensures Inv(JoinIf(h, id, room)) && id in JoinIf(h, id, room).clients
    ensures JoinIf(h, id, room).conns[id].info == h.conns[id].info
    ensures Clean(JoinIf(h, id, room)) <==> Clean(h)
  {
    if room.Some? {
      JoinKeeps(h, id, room.value);
      JoinClean(h, id, room.value);
    }
  }

  lemma RegisterKeeps(h: HubState, info: ClientInfo, queue: seq<Payload>, capacity: nat)
    requires Inv(h) && info.id !in h.conns
    ensures Inv(Register(h, info, queue, capacity)) && (Clean(Register(h, info, queue, capacity)) <==> Clean(h))
  {
    if Admits(h) {
      var h1 := Connect(h, info, queue, capacity);
      ConnectKeeps(h, info, queue, capacity);
      ConnectClean(h, info, queue, capacity);
      RoomForIsEntitled(info, "");
      JoinIfKeeps(h1, info.id, DefaultRoom(info));
      JoinIfKeeps(JoinIf(h1, info.id, DefaultRoom(info)), info.id, OwnPaymentsRoom(info));
    }
  }

  lemma CloseKeeps(h: HubState)
    requires Inv(h)
    ensures Inv(Close(h)) && Clean(Close(h))
  {
    assert forall k :: RoomsOf(Close(h), k) == RoomsOf(h, k);
  }

  lemma DeliverKeeps(h: HubState, p: Payload, times: string -> nat)
    requires Inv(h)
    ensures Inv(DeliverAll(h, p, times)) && (Clean(DeliverAll(h, p, times)) <==> Clean(h))
  {
    var h' := DeliverAll(h, p, times);
    assert forall k :: RoomsOf(h', k) == RoomsOf(h, k);
    assert OnlyEntitled(h');
  }

  lemma ReceiveKeeps(h: HubState, id: string)
    requires Inv(h)
    ensures Inv(Receive(h, id)) && (Clean(Receive(h, id)) <==> Clean(h))
  {
    var h' := Receive(h, id);
    assert forall k :: RoomsOf(h', k) == RoomsOf(h, k);
    assert OnlyEntitled(h');
  }

  // ----- Disconnecting -----

  lemma ListedIsConnected(h: HubState, r: Room, id: string)
    requires Inv(h) && Clean(h) && id in Members(h.rooms, r)
    ensures id in h.clients && id in h.conns && h.conns[id].open && r in h.conns[id].rooms
  {
    ListedIsKnown(h, r, id);
  }

  lemma RemoveKeeps(h: HubState, id: string, sweep: set<Room>)
    requires Inv(h) && id in h.clients
    ensures Inv(Remove(h, id, sweep))
  {
    var h' := Remove(h, id, sweep);
    SweptMembers(h.rooms, id, sweep);
    assert forall k :: RoomsOf(h', k) == RoomsOf(h, k);
    assert Indexed(h');
    assert OnlyEntitled(h');
  }

  lemma RemoveCovered(h: HubState, id: string, sweep: set<Room>)
    requires Indexed(h) && Clean(h) && id in h.clients && RoomsOf(h, id) <= sweep
    ensures Clean(Remove(h, id, sweep))
  {
    SweptMembers(h.rooms, id, sweep);
    var h' := Remove(h, id, sweep);
    forall r, k | k in Members(h'.rooms, r)
      ensures k in h'.clients
    {
      assert k in Members(h.rooms, r);
      if k == id { ListedIsKnown(h, r, id); }
    }
  }

  lemma RemoveLeft(h: HubState, id: string, sweep: set<Room>, r: Room)
    requires Indexed(h) && id in h.clients && id in h.conns && r in RoomsOf(h, id) && r !in sweep
    ensures !Clean(Remove(h, id, sweep))
  {
    SweptMembers(h.rooms, id, sweep);
    assert id in Members(Remove(h, id, sweep).rooms, r);
  }

  lemma RemoveStale(h: HubState, id: string, sweep: set<Room>)
    requires !Clean(h)
    ensures !Clean(Remove(h, id, sweep))
  {
    SweptMembers(h.rooms, id, sweep);
    var r, k :| k in Members(h.rooms, r) && k !in h.clients;
    var h' := Remove(h, id, sweep);
    assert k in Members(h'.rooms, r) && k !in h'.clients;
  }

  /** Removing a connected client always keeps the invariant. It leaves the hub as clean as it was, and so every room safe
      to broadcast to, exactly when the argument's own room set covers the client's rooms. */
  lemma RemoveCleansIff(h: HubState, id: string, sweep: set<Room>)
    requires Inv(h) && id in h.clients
    ensures Inv(Remove(h, id, sweep))
    ensures Clean(Remove(h, id, sweep)) <==> Clean(h) && h.conns[id].rooms <= sweep
  {
    RemoveKeeps(h, id, sweep);
    if !Clean(h) {
      RemoveStale(h, id, sweep);
    } else if h.conns[id].rooms <= sweep {
      RemoveCovered(h, id, sweep);
    } else {
      var r :| r in h.conns[id].rooms && r !in sweep;
      RemoveLeft(h, id, sweep, r);
    }
  }

  /** The object that Session.Start builds has the same id and channel but no rooms. Removing it leaves the id, with a
      closed channel, in every room the client was in, and the unregister call that follows changes nothing. */
  lemma TwinLeavesRooms(h: HubState, id: string)
    requires Inv(h) && id in h.clients
    ensures var h' := Remove(h, id, {});
            && id !in h'.clients && !h'.conns[id].open
            && h'.rooms == h.rooms
            && (forall r :: r in h.conns[id].rooms ==> r in h'.rooms && id in h'.rooms[r])
            && Remove(h', id, h.conns[id].rooms) == h'
            && (Clean(h') <==> Clean(h) && h.conns[id].rooms == {})
  {
    RemoveCleansIff(h, id, {});
    assert Sweep(h.rooms, id, {}) == h.rooms;
    forall r | r in h.conns[id].rooms
      ensures r in h.rooms && id in h.rooms[r]
    {
      assert r in RoomsOf(h, id) && id in Members(h.rooms, r);
    }
  }

  // ----- Runs -----

  /** Any operation on the hub. Unregister is the closure that Register returned, which removes the stored client; Remove
      is given an object of its own, as the read pump of a session does, whose own rooms may be anything. */
  datatype Action =
    | DoRegister(info: ClientInfo, capacity: nat)
    | DoSubscribe(id: string, channel: string)
    | DoUnsubscribe(id: string, channel: string)
    | DoUnregister(id: string)
    | DoRemove(id: string, sweep: set<Room>)
    | DoClose
    | DoBroadcast(room: Room, p: Payload)
    | DoBroadcastToOrganization(org: Uuid, channel: string, p: Payload)
    | DoSend(id: string, p: Payload)
    | DoReceive(id: string)

  /** Registered ids are fresh (uuid.New); a registration that is not does not occur. */
  function Apply(h: HubState, a: Action): HubState {
    match a
    case DoRegister(info, capacity) => if info.id in h.conns then h else Register(h, info, [], capacity)
    case DoSubscribe(id, channel) => Subscribe(h, id, channel)
    case DoUnsubscribe(id, channel) => Unsubscribe(h, id, channel)
    case DoUnregister(id) => Remove(h, id, OwnRooms(h, id))
    case DoRemove(id, sweep) => Remove(h, id, sweep)
    case DoClose => Close(h)
    case DoBroadcast(room, p) => Broadcast(h, room, p)
    case DoBroadcastToOrganization(org, channel, p) => BroadcastToOrganization(h, org, channel, p)
    case DoSend(id, p) => SendToClient(h, id, p)
    case DoReceive(id) => Receive(h, id)
  }

  /** A removal that leaves the client in a room. */
  predicate LeavesRooms(h: HubState, a: Action) {
    a.DoRemove? && a.id in h.clients && a.id in h.conns && !(h.conns[a.id].rooms <= a.sweep)
  }

  function After(limit: nat, actions: seq<Action>): HubState {
    if actions == [] then Start(limit) else Apply(After(limit, actions[..|actions| - 1]), actions[|actions| - 1])
  }

  /** Every action keeps the invariant; a clean hub stays clean exactly if the action does not leave a removed client in a
      room, and only closing the hub cleans it again. */
  lemma StepKeeps(h: HubState, a: Action)
    requires Inv(h)
    ensures Inv(Apply(h, a))
    ensures Clean(Apply(h, a)) <==> Apply(h, a).shut || (Clean(h) && !LeavesRooms(h, a))
  {
    match a
    case DoRegister(info, capacity) => if info.id !in h.conns { RegisterKeeps(h, info, [], capacity); }
    case DoSubscribe(id, channel) =>
      var room := ClientRoom(h, id, channel);
      if room.Some? {
        RoomForIsEntitled(h.conns[id].info, channel);
        JoinKeeps(h, id, room.value);
        JoinClean(h, id, room.value);
      }
    case DoUnsubscribe(id, channel) =>
      var room := ClientRoom(h, id, channel);
      if room.Some? {
        LeaveKeeps(h, id, room.value);
        LeaveClean(h, id, room.value);
      }
    case DoUnregister(id) => if id in h.clients { RemoveCleansIff(h, id, OwnRooms(h, id)); }
    case DoRemove(id, sweep) => if id in h.clients { RemoveCleansIff(h, id, sweep); }
    case DoClose => CloseKeeps(h);
    case DoBroadcast(room, p) => DeliverKeeps(h, p, InRoom(h, room));
    case DoBroadcastToOrganization(org, channel, p) => DeliverKeeps(h, p, InMatching(h, org, channel));
    case DoSend(id, p) => DeliverKeeps(h, p, Only(h, id));
    case DoReceive(id) => ReceiveKeeps(h, id);
  }

  lemma ShutStays(h: HubState, a: Action)
    requires h.shut
    ensures Apply(h, a).shut
  {
  }

  /** After every run of operations, whatever objects removals were given: connected clients are listed exactly in their
      own rooms, no room is empty, clients are only where they are entitled to be, the cap holds, the gauge counts the
      clients and the open channels are those of the connected clients. */
  lemma {:induction false} RunKeeps(limit: nat, actions: seq<Action>)
    ensures var h := After(limit, actions);
            Indexed(h) && NoEmptyRoom(h) && OnlyEntitled(h) && Connections(h) && h.limit == limit
  {
    if actions != [] {
      RunKeeps(limit, actions[..|actions| - 1]);
      StepKeeps(After(limit, actions[..|actions| - 1]), actions[|actions| - 1]);
    }
  }

  /** Some removal in the run left its client in a room. */
  ghost predicate SomeLeft(limit: nat, actions: seq<Action>) {
    exists i :: 0 <= i < |actions| && LeavesRooms(After(limit, actions[..i]), actions[i])
  }

  lemma LeftSoFar(limit: nat, actions: seq<Action>)
    requires actions != []
    ensures var front := actions[..|actions| - 1];
            SomeLeft(limit, actions) <==> SomeLeft(limit, front) || LeavesRooms(After(limit, front), actions[|actions| - 1])
  {
    var front := actions[..|actions| - 1];
    assert forall i :: 0 <= i < |front| ==> front[..i] == actions[..i];
    if SomeLeft(limit, front) {
      var i :| 0 <= i < |front| && LeavesRooms(After(limit, front[..i]), front[i]);
      assert LeavesRooms(After(limit, actions[..i]), actions[i]);
    }
    if SomeLeft(limit, actions) {
      var i :| 0 <= i < |actions| && LeavesRooms(After(limit, actions[..i]), actions[i]);
      if i < |front| { assert LeavesRooms(After(limit, front[..i]), front[i]); }
    }
  }

  /** After every run, the two indexes agree and every room is safe to broadcast to exactly if the hub has been closed or
      every removal so far covered its client's rooms. */
  lemma {:induction false} CleanIff(limit: nat, actions: seq<Action>)
    ensures var h := After(limit, actions);
            && (IndexesAgree(h) <==> h.shut || !SomeLeft(limit, actions))
            && (Sendable(h) <==> h.shut || !SomeLeft(limit, actions))
            && (Clean(h) <==> h.shut || !SomeLeft(limit, actions))
  {
    RunKeeps(limit, actions);
    CleanMeans(After(limit, actions));
    if actions != [] {
      var front, a := actions[..|actions| - 1], actions[|actions| - 1];
      var h := After(limit, front);
      RunKeeps(limit, front);
      CleanIff(limit, front);
      StepKeeps(h, a);
      LeftSoFar(limit, actions);
      if h.shut { ShutStays(h, a); }
    }
  }

  /** The ids whose channels an action sends to. */
  function Targets(h: HubState, a: Action): set<string> {
    match a
    case DoBroadcast(room, _) => if h.shut then {} else Members(h.rooms, room)
    case DoBroadcastToOrganization(org, channel, _) =>
      if h.shut then {} else set r, id | r in h.rooms && InOrganization(r, org, channel) && id in h.rooms[r] :: id
    case DoSend(id, _) => if h.shut || id !in h.clients then {} else {id}
    case _ => {}
  }

  /** Sending on a closed channel panics. */
  predicate Panics(h: HubState, a: Action) {
    exists id :: id in Targets(h, a) && !(id in h.conns && h.conns[id].open)
  }

  lemma CleanNeverPanics(h: HubState, a: Action)
    requires Inv(h) && Clean(h)
    ensures !Panics(h, a)
  {
    forall id | id in Targets(h, a)
      ensures id in h.conns && h.conns[id].open
    {
      match a
      case DoBroadcast(room, _) => ListedIsConnected(h, room, id);
      case DoBroadcastToOrganization(org, channel, _) =>
        var r :| r in h.rooms && InOrganization(r, org, channel) && id in h.rooms[r];
        ListedIsConnected(h, r, id);
      case _ =>
    }
  }

  lemma ListedPanics(h: HubState, r: Room, id: string)
    requires Inv(h) && id in Members(h.rooms, r) && id !in h.clients
    ensures Panics(h, DoBroadcast(r, ""))
  {
    ListedIsKnown(h, r, id);
    assert id in Targets(h, DoBroadcast(r, ""));
  }

  /** After every run, no broadcast or send can reach a closed channel exactly if the hub has been closed or every removal
      so far covered its client's rooms; otherwise broadcasting to a room that still lists a removed client does. */
  lemma NeverPanicsIff(limit: nat, actions: seq<Action>)
    ensures var h := After(limit, actions);
            (forall a :: !Panics(h, a)) <==> h.shut || !SomeLeft(limit, actions)
  {
    var h := After(limit, actions);
    RunKeeps(limit, actions);
    CleanIff(limit, actions);
    if Clean(h) {
      forall a: Action
        ensures !Panics(h, a)
      {
        CleanNeverPanics(h, a);
      }
    } else {
      var r, id :| id in Members(h.rooms, r) && id !in h.clients;
      ListedPanics(h, r, id);
    }
  }

  /** So a session that ends as it is coded, with an object that knows no rooms, is enough: once a user has connected and
      disconnected, a payload for the user's payments room panics. */
  lemma SessionEndPanics(limit: nat, info: ClientInfo, capacity: nat, p: Payload)
    requires limit > 0 && info.userId != NIL
    ensures Panics(After(limit, [DoRegister(info, capacity), DoRemove(info.id, {})]), DoBroadcast(PaymentsRoom(info.userId), p))
  {
    var join, leave := DoRegister(info, capacity), DoRemove(info.id, {});
    assert [join, leave][..1] == [join] && [join][..0] == [];
    assert After(limit, [join]) == Apply(Start(limit), join);
    WelcomedToPayments(Start(limit), info, [], capacity);
    TwinPanics(After(limit, [join]), info.id, PaymentsRoom(info.userId), p);
  }

  lemma TwinPanics(h: HubState, id: string, room: Room, p: Payload)
    requires id in h.clients && id in h.conns && !h.shut && id in Members(h.rooms, room)
    ensures Panics(Apply(h, DoRemove(id, {})), DoBroadcast(room, p))
  {
    assert id in Targets(Remove(h, id, {}), DoBroadcast(room, p));
  }

  lemma WelcomedToPayments(h: HubState, info: ClientInfo, queue: seq<Payload>, capacity: nat)
    requires Admits(h) && info.userId != NIL
    ensures var h' := Register(h, info, queue, capacity);
            info.id in h'.clients && info.id in h'.conns && !h'.shut && info.id in Members(h'.rooms, PaymentsRoom(info.userId))
  {
    ConstantRooms(info.orgId, info.appId, info.userId);
  }

  /** The ids whose channels an action closes. */
  function Closes(h: HubState, a: Action): set<string> {
    match a
    case DoUnregister(id) => if id in h.clients then {id} else {}
    case DoRemove(id, _) => if id in h.clients then {id} else {}
    case DoClose => h.clients
    case _ => {}
  }

  /** How often a run closes the channel of an id. */
  function CloseCount(limit: nat, actions: seq<Action>, id: string): nat {
    if actions == [] then 0
    else
      var front := actions[..|actions| - 1];
      CloseCount(limit, front, id) + if id in Closes(After(limit, front), actions[|actions| - 1]) then 1 else 0
  }

  lemma RegisterKeepsOpen(h: HubState, info: ClientInfo, capacity: nat, id: string)
    requires info.id !in h.conns && id in h.conns
    ensures var h' := Register(h, info, [], capacity); id in h'.conns && h'.conns[id].open == h.conns[id].open
  {
  }

  lemma OnceClosed(h: HubState, a: Action, id: string)
    requires h.clients <= h.conns.Keys && id in h.conns
    ensures id in Apply(h, a).conns
    ensures Apply(h, a).conns[id].open <==> h.conns[id].open && id !in Closes(h, a)
  {
    match a
    case DoRegister(info, capacity) => if info.id !in h.conns { RegisterKeepsOpen(h, info, capacity, id); }
    case DoSubscribe(other, channel) =>
    case DoUnsubscribe(other, channel) =>
    case DoUnregister(other) =>
    case DoRemove(other, sweep) =>
    case DoClose => assert Shut(h.conns, h.clients)[id].open <==> h.conns[id].open && id !in h.clients;
    case DoBroadcast(room, p) =>
    case DoBroadcastToOrganization(org, channel, p) =>
    case DoSend(other, p) =>
    case DoReceive(other) =>
  }

  lemma Newcomer(h: HubState, a: Action, id: string)
    requires h.clients <= h.conns.Keys && id !in h.conns
    ensures id !in Closes(h, a)
    ensures id in Apply(h, a).conns ==> Apply(h, a).conns[id].open
  {
    match a
    case DoRegister(info, capacity) =>
    case DoSubscribe(other, channel) =>
    case DoUnsubscribe(other, channel) =>
    case DoUnregister(other) =>
    case DoRemove(other, sweep) =>
    case DoClose =>
    case DoBroadcast(room, p) =>
    case DoBroadcastToOrganization(org, channel, p) =>
    case DoSend(other, p) =>
    case DoReceive(other) =>
  }

  /** A channel is closed at most once in any run, whatever mix of unregister calls, removals and Close it sees, and it is
      closed exactly when it has been closed once. */
  lemma {:induction false} ClosedAtMostOnce(limit: nat, actions: seq<Action>, id: string)
    ensures CloseCount(limit, actions, id) <= 1
    ensures id in After(limit, actions).conns ==>
              (After(limit, actions).conns[id].open <==> CloseCount(limit, actions, id) == 0)
    ensures id !in After(limit, actions).conns ==> CloseCount(limit, actions, id) == 0
  {
    if actions != [] {
      var front, a := actions[..|actions| - 1], actions[|actions| - 1];
      var h := After(limit, front);
      ClosedAtMostOnce(limit, front, id);
      RunKeeps(limit, front);
      if id in h.conns { OnceClosed(h, a, id); } else { Newcomer(h, a, id); }
    }
  }

  // ----- Who receives a broadcast -----

  /** Broadcasting to a user's payments room offers the payload once to each connected client of that user that has not
      left the room, and to no other client that is connected; if the hub is clean, to no other client at all. */
  lemma PaymentsReachUser(h: HubState, user: Uuid, p: Payload, id: string)
    requires Inv(h) && user != NIL && id in h.conns && (id in h.clients || Clean(h))
    ensures var was, now := h.conns[id], Broadcast(h, PaymentsRoom(user), p).conns[id];
            now == if id in h.clients && was.info.userId == user && PaymentsRoom(user) in was.rooms
                   then was.(queue := Offer(was.queue, was.capacity, p)) else was
  {
    var room := PaymentsRoom(user);
    if id in Members(h.rooms, room) { ListedIsKnown(h, room, id); }
    if room in OwnRooms(h, id) {
      assert room in RoomsOf(h, id);
      EntitledToPayments(h.conns[id].info, user);
    }
    var conn := h.conns[id];
    assert OfferTimes(conn.queue, conn.capacity, p, 1) == Offer(conn.queue, conn.capacity, p);
  }

  lemma EntitledToPayments(info: ClientInfo, user: Uuid)
    requires Entitled(info, PaymentsRoom(user))
    ensures info.userId == user
  {
    forall c
      ensures PaymentsRoom(user) != OrgRoom(info.orgId, info.appId, c)
    {
      UserIsNotOrg(user, PAYMENTS_CHANNEL, info.orgId, info.appId, c);
    }
    UserRoomInjective(user, info.userId, PAYMENTS_CHANNEL, PAYMENTS_CHANNEL);
  }

  /** A client is in at most one room of an organisation and channel, the one of its own app. */
  lemma MatchingIsOwn(h: HubState, org: Uuid, channel: string, id: string)
    requires Inv(h) && NoColon(channel) && id in h.conns && (id in h.clients || Clean(h))
    ensures var info := h.conns[id].info;
            MatchingRooms(h, org, channel, id)
            == if org == info.orgId && OrgRoom(org, info.appId, channel) in OwnRooms(h, id) && info.orgId != NIL
                  && info.appId != NIL && ChannelName(channel)
               then {OrgRoom(org, info.appId, channel)} else {}
  {
    var info, own := h.conns[id].info, OrgRoom(org, h.conns[id].info.appId, channel);
    forall r | r in MatchingRooms(h, org, channel, id)
      ensures r == own && org == info.orgId && r in OwnRooms(h, id)
      ensures info.orgId != NIL && info.appId != NIL && ChannelName(channel)
    {
      assert id in Members(h.rooms, r);
      assert r in RoomsOf(h, id) && r in OwnRooms(h, id) && Entitled(info, r);
      if r == PaymentsRoom(info.userId) {
        SelectsOrganization(org, channel, info.userId, info.userId, PAYMENTS_CHANNEL);
      } else {
        var c :| ChannelName(c) && r == OrgRoom(info.orgId, info.appId, c);
        SelectsOrganization(org, channel, info.orgId, info.appId, c);
      }
    }
    if own in OwnRooms(h, id) && org == info.orgId && ChannelName(channel) {
      assert own in RoomsOf(h, id) && id in Members(h.rooms, own);
      SelectsOrganization(org, channel, org, info.appId, channel);
    }
  }

  /** Broadcasting to an organisation's channel offers the payload exactly once to each connected client of the
      organisation that is in its own app's room of that channel, and to no other client that is connected; if the hub is
      clean, to no other client at all. */
  lemma OrganizationReachesMembers(h: HubState, org: Uuid, channel: string, p: Payload, id: string)
    requires Inv(h) && NoColon(channel) && ChannelName(channel) && id in h.conns && org != NIL
    requires id in h.clients || Clean(h)
    ensures var was, now := h.conns[id], BroadcastToOrganization(h, org, channel, p).conns[id];
            var member := was.info.orgId == org && was.info.appId != NIL
                          && OrgRoom(org, was.info.appId, channel) in OwnRooms(h, id);
            now == if member then was.(queue := Offer(was.queue, was.capacity, p)) else was
  {
    MatchingIsOwn(h, org, channel, id);
    var conn := h.conns[id];
    assert OfferTimes(conn.queue, conn.capacity, p, 1) == Offer(conn.queue, conn.capacity, p);
  }
}
