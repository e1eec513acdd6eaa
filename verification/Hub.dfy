/** The hub's mutable form: maps of client objects and their send channels, each method proved against HubModel. */
module Hub {
  import opened Rooms
  import opened HubModel
  import opened Membership

  /** A buffered Go channel of payloads. Sending on a closed channel and closing one twice panic, so both are
      preconditions here. */
  class Channel {
    const capacity: nat
    var queue: seq<Payload>
    var closed: bool

    constructor (capacity: nat)
      ensures this.capacity == capacity && queue == [] && !closed
    {
      this.capacity := capacity;
      queue, closed := [], false;
    }

    /** A send that does not wait: a payload that finds the buffer full is dropped. */
    method TrySend(p: Payload)
      requires !closed
      modifies `queue
      ensures queue == Offer(old(queue), capacity, p)
    {
      if |queue| < capacity {
        queue := queue + [p];
      }
    }

    method Close()
      requires !closed
      modifies `closed
      ensures closed
    {
      closed := true;
    }
  }

  class Client {
    const info: ClientInfo
    const send: Channel
    var rooms: set<Room>
    var closed: bool

    constructor (info: ClientInfo, send: Channel)
      ensures this.info == info && this.send == send && rooms == {} && !closed
    {
      this.info, this.send := info, send;
      rooms, closed := {}, false;
    }

    method CloseSend()
      requires !closed ==> !send.closed
      modifies `closed, send`closed
      ensures closed && (send.closed <==> old(send.closed) || !old(closed))
    {
      if !closed {
        closed := true;
        send.Close();
      }
    }
  }

  // ----- Indexes of client objects -----

  /** The ids in each room of an index of objects. */
  function IndexOf<C>(rooms: map<Room, map<string, C>>): map<Room, set<string>> {
    map r | r in rooms :: rooms[r].Keys
  }

  /** Every object in an index is the known one of its id. */
  ghost predicate Stored<C>(rooms: map<Room, map<string, C>>, known: map<string, C>) {
    forall r, id :: r in rooms && id in rooms[r] ==> id in known && rooms[r][id] == known[id]
  }

  function WithMember<C>(rooms: map<Room, map<string, C>>, room: Room, id: string, c: C): map<Room, map<string, C>> {
    rooms[room := (if room in rooms then rooms[room] else map[])[id := c]]
  }

  lemma IndexOfAdd<C>(rooms: map<Room, map<string, C>>, known: map<string, C>, room: Room, id: string, c: C)
    requires Stored(rooms, known) && id in known && known[id] == c
    ensures Stored(WithMember(rooms, room, id, c), known)
    ensures IndexOf(WithMember(rooms, room, id, c)) == IndexOf(rooms)[room := Members(IndexOf(rooms), room) + {id}]
  {
    var members := if room in rooms then rooms[room] else map[];
    assert members[id := c].Keys == Members(IndexOf(rooms), room) + {id};
    IndexOfPut(rooms, room, members[id := c]);
  }

  /** An index without one id in one room, and without the room when that empties it. */
  function WithoutMember<C>(rooms: map<Room, map<string, C>>, room: Room, id: string): map<Room, map<string, C>> {
    if room !in rooms then rooms
    else if |rooms[room] - {id}| == 0 then rooms - {room}
    else rooms[room := rooms[room] - {id}]
  }

  lemma StoredDrop<C>(rooms: map<Room, map<string, C>>, known: map<string, C>, room: Room, id: string)
    requires Stored(rooms, known)
    ensures Stored(WithoutMember(rooms, room, id), known)
  {
  }

  lemma IndexOfPut<C>(rooms: map<Room, map<string, C>>, room: Room, members: map<string, C>)
    ensures IndexOf(rooms[room := members]) == IndexOf(rooms)[room := members.Keys]
  {
  }

  lemma IndexOfDelete<C>(rooms: map<Room, map<string, C>>, room: Room)
    ensures IndexOf(rooms - {room}) == IndexOf(rooms) - {room}
  {
  }

  lemma SweepOne(index: map<Room, set<string>>, room: Room, id: string)
    ensures Sweep(index, id, {room})
         == if room !in index then index
            else if index[room] - {id} == {} then index - {room} else index[room := index[room] - {id}]
  {
  }

  lemma IndexOfDrop<C>(rooms: map<Room, map<string, C>>, room: Room, id: string)
    ensures IndexOf(WithoutMember(rooms, room, id)) == Sweep(IndexOf(rooms), id, {room})
  {
    SweepOne(IndexOf(rooms), room, id);
    if room in rooms {
      var members := rooms[room] - {id};
      assert members.Keys == rooms[room].Keys - {id};
      assert |members| == 0 <==> members.Keys == {};
      IndexOfPut(rooms, room, members);
      IndexOfDelete(rooms, room);
    }
  }

  lemma SweepMore(index: map<Room, set<string>>, id: string, done: set<Room>, room: Room)
    ensures Sweep(Sweep(index, id, done), id, {room}) == Sweep(index, id, done + {room})
  {
    var once, all := Sweep(Sweep(index, id, done), id, {room}), Sweep(index, id, done + {room});
    forall r | r in index
      ensures (r in once <==> r in all) && (r in all ==> once[r] == all[r])
    {
      assert (index[r] - {id}) - {id} == index[r] - {id};
    }
  }

  // ----- The clients ever registered -----

  function ChannelsOf(known: map<string, Client>): set<Channel> { set id | id in known :: known[id].send }

  /** Each client is known by its own id and has a channel of its own. */
  ghost predicate Separate(known: map<string, Client>) {
    && (forall id :: id in known ==> known[id].info.id == id)
    && (forall i, j :: i in known && j in known && i != j ==> known[i].send != known[j].send)
  }

  lemma KnowOneMore(known: map<string, Client>, c: Client, rooms: map<Room, map<string, Client>>)
    requires Separate(known) && c.info.id !in known && c.send !in ChannelsOf(known) && Stored(rooms, known)
    ensures Separate(known[c.info.id := c]) && Stored(rooms, known[c.info.id := c])
  {
  }

  /** The connected clients are the known objects, and neither they nor their channels are closed. */
  ghost predicate Live(clients: map<string, Client>, known: map<string, Client>)
    reads known.Values, ChannelsOf(known)
  {
    forall id :: id in clients ==>
      id in known && clients[id] == known[id] && !known[id].closed && !known[id].send.closed
  }

  /** Every member of a room has an open channel. */
  ghost predicate OpenAt(rooms: map<Room, map<string, Client>>, known: map<string, Client>, room: Room)
    reads ChannelsOf(known)`closed
  {
    room in rooms ==> forall id :: id in rooms[room] ==> id in known && !known[id].send.closed
  }

  /** So has every member of the rooms of an organisation and channel. */
  ghost predicate OpenWhere(rooms: map<Room, map<string, Client>>, known: map<string, Client>, org: Uuid, channel: string)
    reads ChannelsOf(known)`closed
  {
    forall r :: r in rooms && InOrganization(r, org, channel) ==> OpenAt(rooms, known, r)
  }

  /** The given ids are known, and neither their clients nor their channels are closed. */
  ghost predicate AllOpen(known: map<string, Client>, ids: set<string>)
    reads known.Values, ChannelsOf(known)
  {
    forall id :: id in ids ==> id in known && !known[id].closed && !known[id].send.closed
  }

  ghost function ConnOf(c: Client): Conn
    reads c, c.send
  {
    Conn(c.info, c.rooms, c.send.queue, c.send.capacity, !c.send.closed)
  }

  ghost function ConnsOf(known: map<string, Client>): map<string, Conn>
    reads known.Values, ChannelsOf(known)
  {
    map id | id in known :: ConnOf(known[id])
  }

  // ----- Offers -----

  /** A loop over a set in any order: one more element done. */
  lemma MoveOne<T>(all: set<T>, done: set<T>, todo: set<T>, x: T)
    requires all == done + todo && done !! todo && x in todo
    ensures all == (done + {x}) + (todo - {x}) && (done + {x}) !! (todo - {x})
    ensures todo == (todo - {x}) + {x} && x !in done
  {
  }

  lemma MoveBack<T>(all: set<T>, todo: set<T>, x: T)
    requires todo <= all && x in todo
    ensures (all - todo) + {x} == all - (todo - {x})
  {
  }

  /** One offer of the payload to each of the given connections. */
  function Offered(conns: map<string, Conn>, ids: set<string>, p: Payload): map<string, Conn> {
    map id | id in conns :: if id in ids then Deliver(conns[id], p, 1) else conns[id]
  }

  lemma OfferedNone(conns: map<string, Conn>, p: Payload)
    ensures Offered(conns, {}, p) == conns
  {
  }

  lemma OfferedMore(conns: map<string, Conn>, done: set<string>, id: string, p: Payload)
    requires id !in done
    ensures Offered(Offered(conns, done, p), {id}, p) == Offered(conns, done + {id}, p)
  {
  }

  lemma OfferedIsDelivered(conns: map<string, Conn>, ids: set<string>, p: Payload, times: string -> nat)
    requires forall id :: id in conns ==> times(id) == if id in ids then 1 else 0
    ensures Offered(conns, ids, p) == map id | id in conns :: Deliver(conns[id], p, times(id))
  {
  }

  /** The connections after the rooms of `done` have been tested and, where selected, broadcast to. */
  ghost function Matched(h: HubState, done: set<Room>, org: Uuid, channel: string, p: Payload): map<string, Conn> {
    map id | id in h.conns ::
      Deliver(h.conns[id], p, if h.shut then 0 else |MatchingRooms(h, org, channel, id) * done|)
  }

  lemma MatchedNone(h: HubState, org: Uuid, channel: string, p: Payload)
    ensures Matched(h, {}, org, channel, p) == h.conns
  {
    forall id | id in h.conns
      ensures Matched(h, {}, org, channel, p)[id] == h.conns[id]
    {
      assert MatchingRooms(h, org, channel, id) * {} == {};
    }
  }

  lemma MatchedAll(h: HubState, org: Uuid, channel: string, p: Payload)
    ensures Matched(h, h.rooms.Keys, org, channel, p) == BroadcastToOrganization(h, org, channel, p).conns
  {
    forall id | id in h.conns
      ensures MatchingRooms(h, org, channel, id) * h.rooms.Keys == MatchingRooms(h, org, channel, id)
    {
    }
  }

  lemma OfferAgain(c: Conn, p: Payload, n: nat)
    ensures Deliver(Deliver(c, p, n), p, 1) == Deliver(c, p, n + 1)
  {
    var q := OfferTimes(c.queue, c.capacity, p, n);
    assert OfferTimes(q, c.capacity, p, 1) == Offer(q, c.capacity, p);
  }

  lemma MatchedMoreAt(m: set<Room>, done: set<Room>, room: Room)
    requires room !in done
    ensures |m * (done + {room})| == |m * done| + if room in m then 1 else 0
  {
    assert m * (done + {room}) == if room in m then m * done + {room} else m * done;
  }

  lemma MatchedMore(h: HubState, done: set<Room>, room: Room, org: Uuid, channel: string, p: Payload)
    requires room in h.rooms && room !in done
    ensures var before := Matched(h, done, org, channel, p);
            Matched(h, done + {room}, org, channel, p)
            == Offered(before, if h.shut || !InOrganization(room, org, channel) then {} else h.rooms[room], p)
  {
    forall id | id in h.conns
      ensures var before := Matched(h, done, org, channel, p);
              Matched(h, done + {room}, org, channel, p)[id]
              == Offered(before, if h.shut || !InOrganization(room, org, channel) then {} else h.rooms[room], p)[id]
    {
      var m := MatchingRooms(h, org, channel, id);
      MatchedMoreAt(m, done, room);
      OfferAgain(h.conns[id], p, |m * done|);
    }
  }

  lemma ShutNone(conns: map<string, Conn>)
    ensures Shut(conns, {}) == conns
  {
  }

  lemma ShutMore(conns: map<string, Conn>, done: set<string>, id: string)
    requires id in conns
    ensures var was := Shut(conns, done); was[id := was[id].(open := false)] == Shut(conns, done + {id})
  {
  }

  class Hub {
    const maxConnections: nat
    var clients: map<string, Client>
    var rooms: map<Room, map<string, Client>>
    var closed: bool
    ghost var gauge: int
    ghost var known: map<string, Client>

    ghost predicate Valid()
      reads this, known.Values, ChannelsOf(known)
    {
      Separate(known) && Live(clients, known) && Stored(rooms, known)
    }

    ghost function State(): HubState
      reads this, known.Values, ChannelsOf(known)
    {
      HubState(maxConnections, closed, clients.Keys, IndexOf(rooms), ConnsOf(known), gauge)
    }

    /** NewHub: a limit that is not positive means 1000. */
    constructor (limit: int)
      ensures maxConnections == if limit <= 0 then 1000 else limit
      ensures Valid() && State() == Start(maxConnections) && known == map[]
    {
      maxConnections := if limit <= 0 then 1000 else limit;
      clients, rooms, closed, gauge, known := map[], map[], false, 0, map[];
    }

    // ----- Room membership -----

    method EnterOwn(c: Client, room: Room)
      requires Valid() && c.info.id in known && known[c.info.id] == c
      modifies c`rooms
      ensures Valid()
      ensures var was, id := old(ConnsOf(known)), c.info.id;
              ConnsOf(known) == was[id := was[id].(rooms := was[id].rooms + {room})]
    {
      c.rooms := c.rooms + {room};
    }

    method LeaveOwn(c: Client, room: Room)
      requires Valid() && c.info.id in known && known[c.info.id] == c
      modifies c`rooms
      ensures Valid()
      ensures var was, id := old(ConnsOf(known)), c.info.id;
              ConnsOf(known) == was[id := was[id].(rooms := was[id].rooms - {room})]
    {
      c.rooms := c.rooms - {room};
    }

    /** Puts one client into one room, creating the room if need be. */
    method AddMember(c: Client, room: Room)
      requires Stored(rooms, known) && c.info.id in known && known[c.info.id] == c
      modifies `rooms
      ensures Stored(rooms, known)
      ensures IndexOf(rooms) == IndexOf(old(rooms))[room := Members(IndexOf(old(rooms)), room) + {c.info.id}]
    {
      IndexOfAdd(rooms, known, room, c.info.id, c);
      if room !in rooms {
        rooms := rooms[room := map[]];
      }
      rooms := rooms[room := rooms[room][c.info.id := c]];
      assert rooms == WithMember(old(rooms), room, c.info.id, c);
    }

    method AddToRoomLocked(c: Client, room: Room)
      requires Valid() && c.info.id in known && known[c.info.id] == c
      modifies `rooms, c`rooms
      ensures Valid() && State() == Join(old(State()), c.info.id, room)
    {
      ghost var was := ConnsOf(known);
      AddMember(c, room);
      assert ConnsOf(known) == was;
      EnterOwn(c, room);
      ghost var h := Join(old(State()), c.info.id, room);
      assert IndexOf(rooms) == h.rooms;
      assert ConnsOf(known) == h.conns;
    }

    /** Deletes one id from one room, and the room when that empties it. */
    method DropMember(id: string, room: Room)
      requires Stored(rooms, known)
      modifies `rooms
      ensures Stored(rooms, known) && IndexOf(rooms) == Sweep(IndexOf(old(rooms)), id, {room})
    {
      StoredDrop(rooms, known, room, id);
      IndexOfDrop(rooms, room, id);
      if room in rooms {
        var members: map<string, Client> := rooms[room] - {id};
        if |members| == 0 {
          rooms := rooms - {room};
        } else {
          rooms := rooms[room := members];
        }
      }
    }

    method RemoveFromRoomLocked(c: Client, room: Room)
      requires Valid() && c.info.id in known && known[c.info.id] == c
      modifies `rooms, c`rooms
      ensures Valid() && State() == Leave(old(State()), c.info.id, room)
    {
      ghost var was := ConnsOf(known);
      DropMember(c.info.id, room);
      assert ConnsOf(known) == was;
      LeaveOwn(c, room);
      ghost var h := Leave(old(State()), c.info.id, room);
      assert IndexOf(rooms) == h.rooms;
      assert ConnsOf(known) == h.conns;
    }

    method SubscribeChannel(clientId: string, channel: string) returns (ok: bool)
      requires Valid()
      modifies `rooms, known.Values`rooms
      ensures Valid() && State() == Subscribe(old(State()), clientId, channel)
      ensures ok <==> clientId in old(clients) && Available(old(clients)[clientId].info, channel)
    {
      if clientId !in clients {
        return false;
      }
      var c := clients[clientId];
      AvailableIff(c.info, channel);
      var room := RoomFor(c.info, channel);
      if room.None? {
        return false;
      }
      AddToRoomLocked(c, room.value);
      return true;
    }

    method UnsubscribeChannel(clientId: string, channel: string) returns (ok: bool)
      requires Valid()
      modifies `rooms, known.Values`rooms
      ensures Valid() && State() == Unsubscribe(old(State()), clientId, channel)
      ensures ok <==> clientId in old(clients) && Available(old(clients)[clientId].info, channel)
    {
      if clientId !in clients {
        return false;
      }
      var c := clients[clientId];
      AvailableIff(c.info, channel);
      var room := RoomFor(c.info, channel);
      if room.None? {
        return false;
      }
      RemoveFromRoomLocked(c, room.value);
      return true;
    }

    // ----- Connecting and disconnecting -----

    /** Ghost bookkeeping: the client becomes known. */
    ghost method Know(c: Client)
      requires Valid() && c.info.id !in known && c.send !in ChannelsOf(known)
      modifies `known
      ensures Valid() && known == old(known)[c.info.id := c]
      ensures ConnsOf(known) == old(ConnsOf(known))[c.info.id := ConnOf(c)]
    {
      KnowOneMore(known, c, rooms);
      known := known[c.info.id := c];
    }

    method PutClient(c: Client)
      requires Valid() && c.info.id in known && known[c.info.id] == c && !c.closed && !c.send.closed
      modifies `clients, `gauge
      ensures Valid() && clients.Keys == old(clients.Keys) + {c.info.id} && gauge == old(gauge) + 1
      ensures ConnsOf(known) == old(ConnsOf(known))
    {
      clients := clients[c.info.id := c];
      gauge := gauge + 1;
    }

    method DropClient(id: string)
      requires Valid()
      modifies `clients, `gauge
      ensures Valid() && clients.Keys == old(clients.Keys) - {id} && gauge == old(gauge) - 1
      ensures ConnsOf(known) == old(ConnsOf(known))
    {
      clients := clients - {id};
      gauge := gauge - 1;
    }

    method Admit(c: Client)
      requires Valid() && c.info.id !in known && c.send !in ChannelsOf(known) && !c.closed && !c.send.closed
      requires c.rooms == {}
      modifies `clients, `known, `gauge
      ensures Valid() && known == old(known)[c.info.id := c]
      ensures State() == Connect(old(State()), c.info, c.send.queue, c.send.capacity)
    {
      Know(c);
      PutClient(c);
      ghost var h := Connect(old(State()), c.info, c.send.queue, c.send.capacity);
      assert ConnsOf(known) == h.conns;
    }

    /** Joins the default channel's room and the user's payments room, as far as the client has them. */
    method JoinDefaults(c: Client)
      requires Valid() && c.info.id in known && known[c.info.id] == c
      modifies `rooms, c`rooms
      ensures Valid()
      ensures State() == JoinIf(JoinIf(old(State()), c.info.id, DefaultRoom(c.info)), c.info.id, OwnPaymentsRoom(c.info))
    {
      if c.info.orgId != NIL && c.info.appId != NIL {
        var room := BuildRoomKey(c.info.orgId, c.info.appId, DEFAULT_CHANNEL);
        if room.Some? {
          AddToRoomLocked(c, room.value);
        }
      }
      assert State() == JoinIf(old(State()), c.info.id, DefaultRoom(c.info));
      if c.info.userId != NIL {
        var room := BuildUserRoomKey(c.info.userId, PAYMENTS_CHANNEL);
        if room.Some? {
          AddToRoomLocked(c, room.value);
        }
      }
    }

    /** Register returns the client that the unregister closure removes, or null when that closure does nothing. A
        refusal at the cap closes the caller's channel; a refusal by a closed hub leaves it open. */
    method Register(info: ClientInfo, send: Channel) returns (c: Client?)
      requires Valid() && info.id !in known && send !in ChannelsOf(known) && !send.closed
      modifies this, send`closed
      ensures Valid() && State() == HubModel.Register(old(State()), info, send.queue, send.capacity)
      ensures c != null <==> Admits(old(State()))
      ensures c == null ==> known == old(known)
      ensures c != null ==> fresh(c) && c.send == send && c.info == info && known == old(known)[info.id := c]
      ensures send.closed <==> !old(closed) && |old(clients)| >= maxConnections
    {
      assert |clients| == |clients.Keys|;
      if closed {
        return null;
      }
      if |clients| >= maxConnections {
        send.Close();
        assert ConnsOf(known) == old(ConnsOf(known));
        return null;
      }
      c := Welcome(info, send);
    }

    /** The accepting half of Register. */
    method Welcome(info: ClientInfo, send: Channel) returns (c: Client)
      requires Valid() && info.id !in known && send !in ChannelsOf(known) && !send.closed
      modifies `clients, `known, `gauge, `rooms
      ensures Valid()
      ensures var h := Connect(old(State()), info, send.queue, send.capacity);
              State() == JoinIf(JoinIf(h, info.id, DefaultRoom(info)), info.id, OwnPaymentsRoom(info))
      ensures fresh(c) && c.send == send && c.info == info && known == old(known)[info.id := c]
    {
      c := new Client(info, send);
      assert State() == old(State());
      Admit(c);
      JoinDefaults(c);
    }

    /** A registration with a new channel. */
    method Admission(info: ClientInfo) returns (send: Channel, c: Client?)
      requires Valid() && info.id !in known
      modifies this
      ensures Valid() && fresh(send) && send.capacity == 64 && send.queue == []
      ensures State() == HubModel.Register(old(State()), info, [], 64)
      ensures send.closed <==> !old(closed) && |old(clients)| >= maxConnections
      ensures c != null <==> Admits(old(State()))
      ensures c == null ==> send !in ChannelsOf(known)
      ensures c != null ==> c.info == info && c.send == send && info.id in known && known[info.id] == c
    {
      send := new Channel(64);
      assert State() == old(State());
      c := Register(info, send);
    }

    /** What the connection handler does with a new channel: it registers the client and then sends a welcome. The send
        is safe exactly when the hub has been closed or has room, because a registration at the cap closes the channel. */
    method Greet(info: ClientInfo, welcome: Payload) returns (send: Channel, c: Client?, panicked: bool)
      requires Valid() && info.id !in known
      modifies this
      ensures Valid() && fresh(send)
      ensures panicked <==> !old(closed) && |old(clients)| >= maxConnections
      ensures panicked <==> send.closed
      ensures !panicked ==> send.queue == [welcome]
      ensures c != null <==> Admits(old(State()))
      ensures c == null ==> State() == old(State())
      ensures c != null ==>
                var h := HubModel.Register(old(State()), info, [], 64);
                State() == h.(conns := Offered(h.conns, {info.id}, welcome))
    {
      send, c := Admission(info);
      panicked := send.closed;
      if c != null {
        ghost var h := State();
        OfferTo(c, welcome);
        assert State() == h.(conns := Offered(h.conns, {info.id}, welcome));
      } else if !panicked {
        send.TrySend(welcome);
      }
    }

    method SweepRooms(id: string, sweep: set<Room>)
      requires Stored(rooms, known)
      modifies `rooms
      ensures Stored(rooms, known) && IndexOf(rooms) == Sweep(IndexOf(old(rooms)), id, sweep)
    {
      var todo := sweep;
      assert Sweep(IndexOf(rooms), id, {}) == IndexOf(rooms);
      while todo != {}
        invariant todo <= sweep
        invariant Stored(rooms, known) && IndexOf(rooms) == Sweep(IndexOf(old(rooms)), id, sweep - todo)
        decreases todo
      {
        var room :| room in todo;
        SweepMore(IndexOf(old(rooms)), id, sweep - todo, room);
        assert sweep - (todo - {room}) == (sweep - todo) + {room};
        DropMember(id, room);
        todo := todo - {room};
      }
      assert sweep - {} == sweep;
    }

    /** closeSend on a client object whose connection is known under its id but no longer connected. */
    method ShutClient(c: Client)
      requires Valid() && c.info.id in known && c.info.id !in clients
      requires c.send == known[c.info.id].send && !c.closed && !c.send.closed
      modifies c`closed, c.send`closed
      ensures Valid()
      ensures var was, id := old(ConnsOf(known)), c.info.id;
              ConnsOf(known) == was[id := was[id].(open := false)]
    {
      c.CloseSend();
    }

    /** The same for a stored client, while others are still to be closed. */
    method ShutNext(c: Client, ghost rest: set<string>)
      requires Separate(known) && c.info.id in known && known[c.info.id] == c
      requires AllOpen(known, rest + {c.info.id}) && c.info.id !in rest
      modifies c`closed, c.send`closed
      ensures AllOpen(known, rest)
      ensures var was, id := old(ConnsOf(known)), c.info.id;
              ConnsOf(known) == was[id := was[id].(open := false)]
    {
      c.CloseSend();
    }

    /** Takes an id out of the client table and out of the given rooms. */
    method Disconnect(id: string, sweep: set<Room>)
      requires Valid()
      modifies `clients, `rooms, `gauge
      ensures Valid() && clients.Keys == old(clients.Keys) - {id} && gauge == old(gauge) - 1
      ensures IndexOf(rooms) == Sweep(old(IndexOf(rooms)), id, sweep)
      ensures ConnsOf(known) == old(ConnsOf(known))
    {
      DropClient(id);
      ghost var was := ConnsOf(known);
      SweepRooms(id, sweep);
      assert ConnsOf(known) == was;
    }

    /** removeClient sweeps the rooms in the argument's own set and closes its channel. The argument may be the stored
        client or another object for the same connection, such as the one Session.Start builds. */
    method RemoveClient(c: Client)
      requires Valid()
      requires c.info.id in clients ==> c.send == clients[c.info.id].send && !c.closed
      modifies `clients, `rooms, `gauge, c`closed, c.send`closed
      ensures Valid() && State() == Remove(old(State()), c.info.id, c.rooms)
    {
      if c.info.id !in clients {
        return;
      }
      Disconnect(c.info.id, c.rooms);
      ShutClient(c);
      ghost var h := Remove(old(State()), c.info.id, c.rooms);
      assert ConnsOf(known) == h.conns;
      assert IndexOf(rooms) == h.rooms && clients.Keys == h.clients;
    }

    /** The end of a session: readPump removes the object Session.Start built, which has the id and the channel but no
        rooms, and then the unregister closure removes the stored client. */
    method EndSession(stored: Client)
      requires Valid() && stored.info.id in known && known[stored.info.id] == stored
      modifies `clients, `rooms, `gauge, stored`closed, stored.send`closed
      ensures Valid() && State() == Remove(old(State()), stored.info.id, {})
    {
      var twin := new Client(ClientInfo(stored.info.id, NIL, NIL, NIL), stored.send);
      assert State() == old(State());
      RemoveClient(twin);
      RemoveClient(stored);
    }

    // ----- Sending -----

    /** One non-blocking send to a client in the index. */
    method OfferTo(c: Client, p: Payload)
      requires Valid() && c.info.id in known && known[c.info.id] == c && !c.send.closed
      modifies c.send`queue
      ensures Valid() && ConnsOf(known) == Offered(old(ConnsOf(known)), {c.info.id}, p)
      ensures c.send.queue == Offer(old(c.send.queue), c.send.capacity, p)
    {
      ghost var was := ConnOf(c);
      c.send.TrySend(p);
      assert ConnOf(c) == Deliver(was, p, 1) by { assert OfferTimes(was.queue, was.capacity, p, 0) == was.queue; }
    }

    /** The loop of broadcastLocked, over one room's members in any order. */
    method OfferToAll(members: map<string, Client>, p: Payload)
      requires Valid()
      requires forall id :: id in members ==> id in known && members[id] == known[id] && !known[id].send.closed
      modifies ChannelsOf(known)`queue
      ensures Valid() && ConnsOf(known) == Offered(old(ConnsOf(known)), members.Keys, p)
    {
      ghost var was, done := ConnsOf(known), {};
      OfferedNone(was, p);
      var todo := members.Keys;
      while todo != {}
        invariant Valid() && todo <= members.Keys
        invariant members.Keys == done + todo && done !! todo
        invariant ConnsOf(known) == Offered(was, done, p)
        decreases todo
      {
        var id :| id in todo;
        OfferedMore(was, done, id, p);
        MoveOne(members.Keys, done, todo, id);
        OfferTo(members[id], p);
        todo, done := todo - {id}, done + {id};
      }
    }

    /** broadcastLocked: a payload for every member of a room. Each member's channel must be open. */
    method BroadcastLocked(room: Room, p: Payload)
      requires Valid() && (closed || OpenAt(rooms, known, room))
      modifies ChannelsOf(known)`queue
      ensures Valid()
      ensures ConnsOf(known) == Offered(old(ConnsOf(known)), if closed then {} else Members(IndexOf(rooms), room), p)
    {
      OfferedNone(ConnsOf(known), p);
      if closed || room !in rooms {
        return;
      }
      OfferToAll(rooms[room], p);
    }

    /** Safe exactly when no member of the room has a closed channel, which a panic would answer. */
    method BroadcastRoom(room: Room, p: Payload)
      requires Valid() && !Panics(State(), DoBroadcast(room, p))
      modifies ChannelsOf(known)`queue
      ensures Valid() && State() == Broadcast(old(State()), room, p)
    {
      ghost var h := State();
      RoomOpen(room, p);
      BroadcastLocked(room, p);
      OfferedIsDelivered(h.conns, if h.shut then {} else Members(h.rooms, room), p, InRoom(h, room));
    }

    lemma RoomOpen(room: Room, p: Payload)
      requires Valid() && !Panics(State(), DoBroadcast(room, p))
      ensures closed || OpenAt(rooms, known, room)
    {
      if !closed && room in rooms {
        forall id | id in rooms[room]
          ensures id in known && !known[id].send.closed
        {
          assert id in Targets(State(), DoBroadcast(room, p));
        }
      }
    }

    lemma MatchingOpen(org: Uuid, channel: string, p: Payload)
      requires Valid() && !Panics(State(), DoBroadcastToOrganization(org, channel, p))
      ensures closed || OpenWhere(rooms, known, org, channel)
    {
      if !closed {
        forall r, id | r in rooms && InOrganization(r, org, channel) && id in rooms[r]
          ensures id in known && !known[id].send.closed
        {
          assert id in State().rooms[r];
          assert id in Targets(State(), DoBroadcastToOrganization(org, channel, p));
        }
      }
    }

    method BroadcastSelected(room: Room, org: Uuid, channel: string, p: Payload)
      requires Valid() && (closed || OpenWhere(rooms, known, org, channel)) && room in rooms
      modifies ChannelsOf(known)`queue
      ensures Valid() && (closed || OpenWhere(rooms, known, org, channel))
      ensures ConnsOf(known) == Offered(old(ConnsOf(known)),
                if closed || !InOrganization(room, org, channel) then {} else IndexOf(rooms)[room], p)
    {
      if InOrganization(room, org, channel) {
        BroadcastLocked(room, p);
      } else {
        OfferedNone(ConnsOf(known), p);
      }
    }

    method BroadcastNext(room: Room, ghost done: set<Room>, org: Uuid, channel: string, p: Payload, ghost h: HubState)
      requires Valid() && (closed || OpenWhere(rooms, known, org, channel)) && room in rooms && room !in done
      requires h.rooms == IndexOf(rooms) && h.shut == closed && ConnsOf(known) == Matched(h, done, org, channel, p)
      modifies ChannelsOf(known)`queue
      ensures Valid() && (closed || OpenWhere(rooms, known, org, channel))
      ensures ConnsOf(known) == Matched(h, done + {room}, org, channel, p)
    {
      MatchedMore(h, done, room, org, channel, p);
      BroadcastSelected(room, org, channel, p);
    }

    /** The loop of BroadcastToOrganization: every room key is tested, in any order, and every selected room is
        broadcast to. */
    method BroadcastMatching(org: Uuid, channel: string, p: Payload, ghost h: HubState)
      requires Valid() && (closed || OpenWhere(rooms, known, org, channel)) && h == State()
      modifies ChannelsOf(known)`queue
      ensures Valid() && ConnsOf(known) == Matched(h, rooms.Keys, org, channel, p)
    {
      MatchedNone(h, org, channel, p);
      var todo := rooms.Keys;
      assert rooms.Keys - todo == {};
      while todo != {}
        invariant Valid() && (closed || OpenWhere(rooms, known, org, channel)) && todo <= rooms.Keys
        invariant ConnsOf(known) == Matched(h, rooms.Keys - todo, org, channel, p)
        decreases todo
      {
        var room :| room in todo;
        BroadcastNext(room, rooms.Keys - todo, org, channel, p, h);
        MoveBack(rooms.Keys, todo, room);
        todo := todo - {room};
      }
      assert rooms.Keys - todo == rooms.Keys;
    }

    method BroadcastOrganization(org: Uuid, channel: string, p: Payload)
      requires Valid() && !Panics(State(), DoBroadcastToOrganization(org, channel, p))
      modifies ChannelsOf(known)`queue
      ensures Valid() && State() == BroadcastToOrganization(old(State()), org, channel, p)
    {
      ghost var h := State();
      MatchingOpen(org, channel, p);
      BroadcastMatching(org, channel, p, h);
      assert rooms.Keys == h.rooms.Keys;
      MatchedAll(h, org, channel, p);
    }

    method SendTo(clientId: string, p: Payload)
      requires Valid()
      modifies ChannelsOf(known)`queue
      ensures Valid() && State() == SendToClient(old(State()), clientId, p)
    {
      ghost var h := State();
      OfferedNone(h.conns, p);
      OfferedIsDelivered(h.conns, if clientId in h.clients && !h.shut then {clientId} else {}, p, Only(h, clientId));
      if clientId !in clients || closed {
        return;
      }
      OfferTo(clients[clientId], p);
    }

    /** The loop of Close over the connected clients. */
    method ShutAll(former: map<string, Client>)
      requires Separate(known) && Live(former, known)
      modifies former.Values`closed, ChannelsOf(former)`closed
      ensures ConnsOf(known) == Shut(old(ConnsOf(known)), former.Keys)
    {
      ghost var was, done := ConnsOf(known), {};
      ShutNone(was);
      var todo := former.Keys;
      while todo != {}
        invariant AllOpen(known, todo)
        invariant former.Keys == done + todo && done !! todo
        invariant ConnsOf(known) == Shut(was, done)
        decreases todo
      {
        var id :| id in todo;
        ShutMore(was, done, id);
        MoveOne(former.Keys, done, todo, id);
        ShutNext(former[id], todo - {id});
        todo, done := todo - {id}, done + {id};
      }
    }

    method Reset()
      requires Separate(known)
      modifies `clients, `rooms
      ensures Valid() && clients.Keys == {} && IndexOf(rooms) == map[]
      ensures ConnsOf(known) == old(ConnsOf(known))
    {
      clients := map[];
      rooms := map[];
    }

    method MarkClosed()
      requires Valid()
      modifies `closed, `gauge
      ensures Live(clients, known) && closed && gauge == old(gauge) - |clients.Keys|
      ensures ConnsOf(known) == old(ConnsOf(known))
    {
      assert |clients| == |clients.Keys|;
      closed := true;
      gauge := gauge - |clients|;
    }

    method ShutDown()
      requires Valid()
      modifies `closed, `gauge, clients.Values`closed, ChannelsOf(clients)`closed
      ensures closed && gauge == old(gauge) - |clients.Keys|
      ensures ConnsOf(known) == Shut(old(ConnsOf(known)), clients.Keys)
    {
      MarkClosed();
      ShutAll(clients);
    }

    /** Close marks the hub closed, closes every connected client's channel, and empties both tables. */
    method CloseHub()
      requires Valid()
      modifies `closed, `gauge, `clients, `rooms, clients.Values`closed, ChannelsOf(clients)`closed
      ensures Valid() && State() == Close(old(State()))
    {
      ghost var h := Close(State());
      ShutDown();
      ghost var was := ConnsOf(known);
      Reset();
      assert ConnsOf(known) == was == h.conns;
    }
  }
}
