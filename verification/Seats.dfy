/** Capacity of one paid event: whose places its purchases hold, and which operations can overbook it. */
module Seats {
  import opened Payment
  import opened Purchases
  import opened Rooms
  import opened Text

  /** An event with its purchases; `open` if it is public and published; `attending` are users who joined otherwise. A
      free event has no price. */
  datatype Event = Event(id: Uuid, open: bool, priceLunas: int, endsAt: Time, capacity: Option<nat>, attending: set<Uuid>,
                         rows: map<Uuid, Purchase>)

  predicate Active(s: Status) { s in {Pending, Submitted, Verifying, Confirmed} }

  /** Everybody who attends or whose purchase can still, or does, take a place. */
  function Places(e: Event): set<Uuid> { e.attending + set k | k in e.rows && Active(e.rows[k].status) :: e.rows[k].userId }

  /** A pending purchase whose hold has run out and that nobody has expired yet. */
  predicate Lapsed(p: Purchase, now: Time) { p.status == Pending && p.holdExpiresAt.Some? && p.holdExpiresAt.value <= now }

  /** What the capacity queries count: lapsed holds are left out. */
  function Occupied(e: Event, now: Time): set<Uuid> {
    e.attending + set k | k in e.rows && Active(e.rows[k].status) && !Lapsed(e.rows[k], now) :: e.rows[k].userId
  }

  predicate Fits(e: Event) { e.capacity.None? || |Places(e)| <= e.capacity.value }

  /** The unique index: a user has at most one active purchase for the event. */
  ghost predicate OneEach(rows: map<Uuid, Purchase>) {
    forall j, k :: j in rows && k in rows && j != k && rows[j].userId == rows[k].userId ==>
      !(Active(rows[j].status) && Active(rows[k].status))
  }

  /** A row is stored under its id, and belongs to the event. */
  ghost predicate Keyed(e: Event) { forall k :: k in e.rows ==> e.rows[k].id == k && e.rows[k].eventId == e.id }

  // ----- Operations -----

  function LapseAll(rows: map<Uuid, Purchase>, now: Time): map<Uuid, Purchase> { map k | k in rows :: ExpireHold(rows[k], now) }

  predicate HasActive(rows: map<Uuid, Purchase>, user: Uuid) {
    exists k :: k in rows && rows[k].userId == user && Active(rows[k].status)
  }

  datatype Created = Existing | New | SoldOut | NotOpen | EventPast | NotPaid

  /** Create: expire lapsed holds, return the user's active purchase if there is one, check the capacity, insert. A refusal
      rolls everything back. */
  function Create(e: Event, id: Uuid, user: Uuid, now: Time, holdDuration: Time): (Event, Created) {
    if !e.open then (e, NotOpen)
    else if e.endsAt <= now then (e, EventPast)
    else if e.priceLunas <= 0 then (e, NotPaid)
    else
      var lapsed := Lapse(e, now);
      if HasActive(lapsed.rows, user) then (lapsed, Existing)
      else if e.capacity.Some? && |Occupied(lapsed, now)| >= e.capacity.value then (e, SoldOut)
      else (Insert(lapsed, Fresh(e, id, user, now, holdDuration)), New)
  }

  function Lapse(e: Event, now: Time): Event { e.(rows := LapseAll(e.rows, now)) }

  function Insert(e: Event, p: Purchase): Event { e.(rows := e.rows[p.id := p]) }

  /** An event without a capacity needs no hold. */
  function Fresh(e: Event, id: Uuid, user: Uuid, now: Time, holdDuration: Time): Purchase {
    NewPurchase(id, e.id, user, e.priceLunas, if e.capacity.Some? then Some(now + holdDuration) else None, now)
  }

  /** Another purchase of the user is in the way of a recovery. */
  predicate Rival(rows: map<Uuid, Purchase>, p: Purchase) {
    exists k :: k in rows && k != p.id && rows[k].userId == p.userId && rows[k].status in {Submitted, Verifying, Confirmed}
  }

  function RecoverRow(e: Event, id: Uuid, now: Time, reserved: bool): Event {
    if id !in e.rows then e
    else
      match Recover(e.rows[id], now, reserved, Rival(e.rows, e.rows[id]))
      case Err(_) => e
      case Ok(p) =>
        if e.rows[id].status == Confirmed then e else Insert(ReleaseAll(e, p, now), p)
  }

  function ReleaseAll(e: Event, p: Purchase, now: Time): Event { e.(rows := map k | k in e.rows :: Release(e.rows[k], p, now)) }

  /** The organiser's edit: the new capacity must not be below what is occupied. */
  function EditCapacity(e: Event, capacity: Option<nat>, now: Time): Event {
    if !e.open || (capacity.Some? && |Occupied(e, now)| > capacity.value) then e else e.(capacity := capacity)
  }

  /** What may happen to one row outside of a recovery: a submission, a claim, an outcome or an expiry. */
  datatype Change =
    | Submitting(userId: Uuid, hash: string, now: Time, deadline: Time, eventCancelled: bool, used: bool)
    | Claiming(now: Time, retry: Time, duration: Time, force: bool)
    | Setting(status: Status, now: Time)
    | Expiring(now: Time, fallback: Time)
    | Lapsing(now: Time)

  function Changed(p: Purchase, c: Change): Purchase {
    match c
    case Submitting(u, hash, now, deadline, cancelled, used) =>
      var s := Submit(p, u, hash, now, deadline, cancelled, used); if s.Ok? then s.value else p
    case Claiming(now, retry, duration, force) =>
      var s := Claim(p, now, retry, duration, force); if s.Some? then s.value else p
    case Setting(status, now) =>
      var s := SetVerificationState(p, status, now); if s.Ok? then s.value else p
    case Expiring(now, fallback) => ExpireUnresolved(p, now, fallback)
    case Lapsing(now) => ExpireHold(p, now)
  }

  datatype Step =
    | Creating(id: Uuid, user: Uuid, now: Time, holdDuration: Time)
    | Changing(id: Uuid, change: Change)
    | Recovering(id: Uuid, now: Time, reserved: bool)
    | Editing(capacity: Option<nat>, now: Time)
    | Leaving(user: Uuid)
    | Closing

  /** New ids are fresh. Cancelling an event closes it and keeps its purchases. */
  function Apply(e: Event, step: Step): Event {
    match step
    case Creating(id, user, now, hold) => if id in e.rows then e else Create(e, id, user, now, hold).0
    case Changing(id, change) => if id in e.rows then e.(rows := e.rows[id := Changed(e.rows[id], change)]) else e
    case Recovering(id, now, reserved) => RecoverRow(e, id, now, reserved)
    case Editing(capacity, now) => EditCapacity(e, capacity, now)
    case Leaving(user) => e.(attending := e.attending - {user})
    case Closing => e.(open := false)
  }

  // ----- Counting -----

  lemma FewerPlaces(small: set<Uuid>, large: set<Uuid>)
    requires small <= large
    ensures |small| <= |large|
  {
    assert large == small + (large - small);
  }

  lemma OneMore(places: set<Uuid>, user: Uuid)
    ensures |places + {user}| == |places| + if user in places then 0 else 1
  {
    if user in places { assert places + {user} == places; }
  }

  /** A row keeps its owner and does not become active again. */
  predicate NoGain(p: Purchase, q: Purchase) {
    q.id == p.id && q.eventId == p.eventId && q.userId == p.userId && (Active(q.status) ==> Active(p.status))
  }

  lemma ChangeGainsNothing(p: Purchase, c: Change)
    ensures NoGain(p, Changed(p, c))
  {
  }

  ghost predicate NoneGains(before: map<Uuid, Purchase>, after: map<Uuid, Purchase>) {
    before.Keys == after.Keys && forall k :: k in before ==> NoGain(before[k], after[k])
  }

  /** Rows that gain nothing take no places and break no rule. */
  lemma NoGainKeeps(e: Event, rows: map<Uuid, Purchase>)
    requires NoneGains(e.rows, rows) && Keyed(e) && OneEach(e.rows)
    ensures var e' := e.(rows := rows);
            Keyed(e') && OneEach(rows) && Places(e') <= Places(e) && (Fits(e) ==> Fits(e'))
  {
    var e' := e.(rows := rows);
    forall j, k | j in rows && k in rows && j != k && rows[j].userId == rows[k].userId
      ensures !(Active(rows[j].status) && Active(rows[k].status))
    {
      assert NoGain(e.rows[j], rows[j]) && NoGain(e.rows[k], rows[k]);
    }
    forall u | u in Places(e')
      ensures u in Places(e)
    {
      if u !in e.attending {
        var k :| k in rows && Active(rows[k].status) && rows[k].userId == u;
        assert NoGain(e.rows[k], rows[k]);
      }
    }
    FewerPlaces(Places(e'), Places(e));
  }

  lemma LapseGainsNothing(rows: map<Uuid, Purchase>, now: Time)
    ensures NoneGains(rows, LapseAll(rows, now))
  {
  }

  /** Once lapsed holds are expired, the capacity query counts every place. */
  lemma LapsedAreGone(e: Event, now: Time)
    ensures Occupied(Lapse(e, now), now) == Places(Lapse(e, now))
  {
    var rows := LapseAll(e.rows, now);
    assert forall k :: k in rows ==> !Lapsed(rows[k], now);
  }

  lemma InsertedPlaces(e: Event, p: Purchase)
    requires p.id !in e.rows && Active(p.status)
    ensures Places(Insert(e, p)) == Places(e) + {p.userId}
  {
    var rows := e.rows[p.id := p];
    assert rows[p.id] == p && p.userId in Places(e.(rows := rows));
    forall u | u in Places(e)
      ensures u in Places(e.(rows := rows))
    {
      if u !in e.attending {
        var k :| k in e.rows && Active(e.rows[k].status) && e.rows[k].userId == u;
        assert rows[k] == e.rows[k];
      }
    }
  }

  lemma InsertKeeps(e: Event, p: Purchase)
    requires Keyed(e) && OneEach(e.rows) && p.id !in e.rows && p.eventId == e.id && Active(p.status)
    requires !HasActive(e.rows, p.userId)
    ensures var e' := Insert(e, p); Keyed(e') && OneEach(e'.rows) && Places(e') == Places(e) + {p.userId}
  {
    InsertedPlaces(e, p);
    forall k | k in e.rows && e.rows[k].userId == p.userId
      ensures !Active(e.rows[k].status)
    {
    }
  }

  /** An insertion that found room in the count. */
  lemma InsertFits(e: Event, p: Purchase, now: Time)
    requires Keyed(e) && OneEach(e.rows) && p.id !in e.rows && p.eventId == e.id && Active(p.status)
    requires !HasActive(e.rows, p.userId) && Occupied(e, now) == Places(e)
    requires e.capacity.None? || |Occupied(e, now)| < e.capacity.value
    ensures var e' := Insert(e, p); Keyed(e') && OneEach(e'.rows) && Fits(e')
  {
    InsertKeeps(e, p);
    OneMore(Places(e), p.userId);
  }

  lemma LapseKeeps(e: Event, now: Time)
    requires Keyed(e) && OneEach(e.rows)
    ensures var e' := Lapse(e, now); Keyed(e') && OneEach(e'.rows) && e'.rows.Keys == e.rows.Keys && (Fits(e) ==> Fits(e'))
  {
    LapseGainsNothing(e.rows, now);
    NoGainKeeps(e, LapseAll(e.rows, now));
  }

  // ----- When a purchase is created -----

  /** A public, published event that has not ended and has a price. */
  predicate Sells(e: Event, now: Time) { e.open && now < e.endsAt && 0 < e.priceLunas }

  /** The user has a purchase of the event that is active and not a lapsed hold. */
  ghost predicate Holds(e: Event, user: Uuid, now: Time) {
    exists k :: k in e.rows && e.rows[k].userId == user && Active(e.rows[k].status) && !Lapsed(e.rows[k], now)
  }

  predicate Full(e: Event, now: Time) { e.capacity.Some? && |Occupied(e, now)| >= e.capacity.value }

  lemma LapseRow(p: Purchase, now: Time)
    ensures var q := ExpireHold(p, now);
            && q.userId == p.userId && (Active(q.status) <==> Active(p.status) && !Lapsed(p, now)) && !Lapsed(q, now)
            && (!Lapsed(p, now) ==> q == p)
  {
  }

  lemma HoldsAfterLapse(e: Event, user: Uuid, now: Time)
    ensures HasActive(Lapse(e, now).rows, user) <==> Holds(e, user, now)
  {
    var rows := Lapse(e, now).rows;
    forall k | k in e.rows
      ensures rows[k].userId == e.rows[k].userId && (Active(rows[k].status) <==> Active(e.rows[k].status) && !Lapsed(e.rows[k], now))
    {
      LapseRow(e.rows[k], now);
    }
  }

  lemma OccupiedAfterLapse(e: Event, now: Time)
    ensures Occupied(Lapse(e, now), now) == Occupied(e, now)
  {
    var lapsed := Lapse(e, now);
    forall k | k in e.rows
      ensures lapsed.rows[k].userId == e.rows[k].userId
      ensures Active(lapsed.rows[k].status) && !Lapsed(lapsed.rows[k], now) <==> Active(e.rows[k].status) && !Lapsed(e.rows[k], now)
    {
      LapseRow(e.rows[k], now);
    }
  }

  /** The outcome of a creation, each with its own condition and in the order in which the event is checked: a new purchase
      exactly for an event that sells, to a user who holds none, while there is room. */
  lemma {:induction false} CreateIff(e: Event, id: Uuid, user: Uuid, now: Time, hold: Time)
    ensures var outcome := Create(e, id, user, now, hold).1;
            && (outcome == NotOpen <==> !e.open)
            && (outcome == EventPast <==> e.open && e.endsAt <= now)
            && (outcome == NotPaid <==> e.open && now < e.endsAt && e.priceLunas <= 0)
            && (outcome == Existing <==> Sells(e, now) && Holds(e, user, now))
            && (outcome == SoldOut <==> Sells(e, now) && !Holds(e, user, now) && Full(e, now))
            && (outcome == New <==> Sells(e, now) && !Holds(e, user, now) && !Full(e, now))
  {
    HoldsAfterLapse(e, user, now);
    OccupiedAfterLapse(e, now);
  }

  /** A row whose hold has lapsed is expired, and any other is left as it is. */
  predicate LapsedTo(p: Purchase, q: Purchase, now: Time) {
    if Lapsed(p, now) then
      && q.status == Expired && q.updatedAt == now && q.id == p.id && q.eventId == p.eventId && q.userId == p.userId
      && q.amountLunas == p.amountLunas && q.hash == p.hash
    else q == p
  }

  /** A pending purchase of this user for the event's price, with a hold exactly if the event has a capacity. */
  predicate Offered(p: Purchase, e: Event, id: Uuid, user: Uuid, now: Time, hold: Time) {
    && p.id == id && p.userId == user && p.eventId == e.id && p.amountLunas == e.priceLunas && p.status == Pending
    && p.hash.None? && p.createdAt == now
    && (e.capacity.None? ==> p.holdExpiresAt.None?) && (e.capacity.Some? ==> p.holdExpiresAt == Some(now + hold))
  }

  /** What a creation leaves behind: the new row besides the others, with lapsed holds expired, or nothing changed by a
      refusal. */
  lemma {:induction false} CreatedRows(e: Event, id: Uuid, user: Uuid, now: Time, hold: Time)
    requires id !in e.rows
    ensures var c := Create(e, id, user, now, hold); var rows := c.0.rows;
            && c.0 == e.(rows := rows)
            && rows.Keys == e.rows.Keys + (if c.1 == New then {id} else {})
            && (c.1 == New ==> Offered(rows[id], e, id, user, now, hold))
            && (c.1 == New || c.1 == Existing ==> forall k :: k in e.rows ==> LapsedTo(e.rows[k], rows[k], now))
            && (c.1 != New && c.1 != Existing ==> c.0 == e)
  {
    CreatedState(e, id, user, now, hold);
    LapsedRowsAre(e, now);
    FreshIsOffered(e, id, user, now, hold);
    if Create(e, id, user, now, hold).1 == New { InsertedRow(Lapse(e, now), Fresh(e, id, user, now, hold), id); }
  }

  lemma CreatedState(e: Event, id: Uuid, user: Uuid, now: Time, hold: Time)
    ensures var c := Create(e, id, user, now, hold);
            c.0 == if c.1 == New then Insert(Lapse(e, now), Fresh(e, id, user, now, hold))
                   else if c.1 == Existing then Lapse(e, now) else e
  {
  }

  lemma InsertedRow(e: Event, p: Purchase, id: Uuid)
    requires p.id == id && id !in e.rows
    ensures var e' := Insert(e, p);
            && e' == e.(rows := e'.rows) && e'.rows.Keys == e.rows.Keys + {id} && e'.rows[id] == p
            && forall k :: k in e.rows ==> e'.rows[k] == e.rows[k]
  {
  }

  lemma LapsedRowsAre(e: Event, now: Time)
    ensures var rows := Lapse(e, now).rows;
            rows.Keys == e.rows.Keys && forall k :: k in e.rows ==> LapsedTo(e.rows[k], rows[k], now)
  {
  }

  lemma FreshIsOffered(e: Event, id: Uuid, user: Uuid, now: Time, hold: Time)
    ensures Offered(Fresh(e, id, user, now, hold), e, id, user, now, hold)
  {
  }

  /** A closed event sells nothing more, and a user who leaves frees the place unless a purchase keeps it. */
  lemma ClosedSellsNothing(e: Event, id: Uuid, user: Uuid, now: Time, hold: Time)
    ensures Create(Apply(e, Closing), id, user, now, hold) == (Apply(e, Closing), NotOpen)
  {
  }

  lemma LeavingFrees(e: Event, user: Uuid, other: Uuid)
    ensures other in Places(Apply(e, Leaving(user))) <==> (other in e.attending && other != user) || HasActive(e.rows, other)
  {
  }

  /** A capacity is changed for an open event only, and only if everybody who is counted keeps a place. */
  lemma EditIff(e: Event, capacity: Option<nat>, now: Time)
    ensures var e' := EditCapacity(e, capacity, now);
            && e' == e.(capacity := e'.capacity)
            && (e'.capacity == capacity <==>
                  capacity == e.capacity || (e.open && (capacity.Some? ==> capacity.value >= |Occupied(e, now)|)))
            && (e'.capacity == capacity || e'.capacity == e.capacity)
  {
  }

  lemma CreateCases(e: Event, id: Uuid, user: Uuid, now: Time, hold: Time)
    ensures var c, lapsed, p := Create(e, id, user, now, hold), Lapse(e, now), Fresh(e, id, user, now, hold);
            && p.id == id && p.eventId == e.id && p.userId == user && Active(p.status) && lapsed.capacity == e.capacity
            && (if c.1 == New then
                  && c.0 == Insert(lapsed, p) && !HasActive(lapsed.rows, user)
                  && (e.capacity.None? || |Occupied(lapsed, now)| < e.capacity.value)
                else c.0 == e || c.0 == lapsed)
  {
  }

  /** Creating a purchase never gives a user a second active one and never overbooks the event. */
  lemma CreateKeeps(e: Event, id: Uuid, user: Uuid, now: Time, hold: Time)
    requires Keyed(e) && OneEach(e.rows) && id !in e.rows
    ensures var e' := Create(e, id, user, now, hold).0; Keyed(e') && OneEach(e'.rows) && (Fits(e) ==> Fits(e'))
  {
    CreateCases(e, id, user, now, hold);
    LapseKeeps(e, now);
    LapsedAreGone(e, now);
    if Create(e, id, user, now, hold).1 == New {
      InsertFits(Lapse(e, now), Fresh(e, id, user, now, hold), now);
    }
  }

  lemma ChangeKeeps(e: Event, id: Uuid, change: Change)
    requires Keyed(e) && OneEach(e.rows) && id in e.rows
    ensures var e' := e.(rows := e.rows[id := Changed(e.rows[id], change)]);
            Keyed(e') && OneEach(e'.rows) && (Fits(e) ==> Fits(e'))
  {
    ChangeGainsNothing(e.rows[id], change);
    NoGainKeeps(e, e.rows[id := Changed(e.rows[id], change)]);
  }

  /** A row that takes the place of another one of its user. */
  lemma ReplacedPlaces(e: Event, p: Purchase)
    requires Keyed(e) && p.id in e.rows && p.userId == e.rows[p.id].userId && Active(p.status) && !Active(e.rows[p.id].status)
    ensures Places(Insert(e, p)) == Places(e) + {p.userId}
  {
    var rows := e.rows[p.id := p];
    assert rows[p.id] == p && p.userId in Places(e.(rows := rows));
    forall u | u in Places(e)
      ensures u in Places(e.(rows := rows))
    {
      if u !in e.attending {
        var k :| k in e.rows && Active(e.rows[k].status) && e.rows[k].userId == u;
        assert rows[k] == e.rows[k];
      }
    }
  }

  /** Whether a recovery goes through for an expired row. */
  predicate Recovers(e: Event, id: Uuid, now: Time, reserved: bool) {
    id in e.rows && e.rows[id].status == Expired && Recover(e.rows[id], now, reserved, Rival(e.rows, e.rows[id])).Ok?
  }

  /** Releasing the user's pending purchases leaves them in the event's places only through the recovered one. */
  lemma ReleasedPlaces(e: Event, id: Uuid, p: Purchase, now: Time)
    requires Keyed(e) && OneEach(e.rows) && id in e.rows && !Active(e.rows[id].status)
    requires p.id == id && p.eventId == e.id && p.userId == e.rows[id].userId && !Rival(e.rows, e.rows[id])
    ensures var e' := ReleaseAll(e, p, now);
            && Keyed(e') && OneEach(e'.rows) && e'.rows[id] == e.rows[id] && !HasActive(e'.rows, p.userId)
            && Places(e') + {p.userId} == Places(e) + {p.userId}
  {
    var rows := ReleaseAll(e, p, now).rows;
    NoGainKeeps(e, rows);
    forall u | u in Places(e) && u != p.userId
      ensures u in Places(e.(rows := rows))
    {
      if u !in e.attending {
        var k :| k in e.rows && Active(e.rows[k].status) && e.rows[k].userId == u;
        assert rows[k] == e.rows[k];
      }
    }
    forall k | k in rows && rows[k].userId == p.userId
      ensures !Active(rows[k].status)
    {
      assert !(k != id && e.rows[k].userId == p.userId && e.rows[k].status in {Submitted, Verifying, Confirmed});
    }
  }

  lemma ReplaceKeeps(e: Event, p: Purchase)
    requires Keyed(e) && OneEach(e.rows) && p.id in e.rows && p.eventId == e.id && p.userId == e.rows[p.id].userId
    requires Active(p.status) && !HasActive(e.rows, p.userId)
    ensures var e' := Insert(e, p); Keyed(e') && OneEach(e'.rows) && Places(e') == Places(e) + {p.userId}
  {
    assert !Active(e.rows[p.id].status);
    ReplacedPlaces(e, p);
    forall k | k in e.rows && e.rows[k].userId == p.userId
      ensures !Active(e.rows[k].status)
    {
    }
  }

  lemma RecoveredRow(e: Event, id: Uuid, now: Time, reserved: bool)
    ensures if Recovers(e, id, now, reserved) then
              var p := Recover(e.rows[id], now, reserved, Rival(e.rows, e.rows[id])).value;
              && RecoverRow(e, id, now, reserved) == Insert(ReleaseAll(e, p, now), p)
              && p.id == e.rows[id].id && p.eventId == e.rows[id].eventId && p.userId == e.rows[id].userId
              && p.status == Confirmed
              && !Rival(e.rows, e.rows[id])
            else RecoverRow(e, id, now, reserved) == e
  {
  }

  /** A recovery takes exactly one place, its user's, who may have held it already. */
  lemma RecoverTakesOne(e: Event, id: Uuid, now: Time, reserved: bool)
    requires Keyed(e) && OneEach(e.rows)
    ensures var e' := RecoverRow(e, id, now, reserved);
            && Keyed(e') && OneEach(e'.rows) && e'.capacity == e.capacity
            && Places(e') == if Recovers(e, id, now, reserved) then Places(e) + {e.rows[id].userId} else Places(e)
  {
    RecoveredRow(e, id, now, reserved);
    if Recovers(e, id, now, reserved) {
      var p := Recover(e.rows[id], now, reserved, Rival(e.rows, e.rows[id])).value;
      ReleasedPlaces(e, id, p, now);
      ReplaceKeeps(ReleaseAll(e, p, now), p);
    }
  }

  // ----- Overbooking -----

  /** Users whose only claim to a place is a lapsed hold: the capacity queries do not see them. */
  function Unseen(e: Event, now: Time): set<Uuid> { Places(e) - Occupied(e, now) }

  lemma OccupiedArePlaces(e: Event, now: Time)
    ensures Occupied(e, now) <= Places(e) && |Places(e)| == |Occupied(e, now)| + |Unseen(e, now)|
  {
    assert Places(e) == Occupied(e, now) + Unseen(e, now);
  }

  /** The two ways to overbook: recovering a payment for a full event whose user has no place, and lowering the capacity
      to what is occupied while more lapsed holds than there is room for can still be submitted. */
  predicate Overbooks(e: Event, step: Step) {
    match step
    case Recovering(id, now, reserved) =>
      Recovers(e, id, now, reserved) && e.capacity.Some? && |Places(e)| >= e.capacity.value && e.rows[id].userId !in Places(e)
    case Editing(capacity, now) =>
      e.open && capacity.Some? && |Occupied(e, now)| <= capacity.value && |Unseen(e, now)| > capacity.value - |Occupied(e, now)|
    case _ => false
  }

  ghost predicate Inv(e: Event) { Keyed(e) && OneEach(e.rows) }

  lemma RecoverFits(e: Event, id: Uuid, now: Time, reserved: bool)
    requires Inv(e)
    ensures var e' := RecoverRow(e, id, now, reserved);
            Inv(e') && (Fits(e) ==> (Fits(e') <==> !Overbooks(e, Recovering(id, now, reserved))))
  {
    RecoverTakesOne(e, id, now, reserved);
    if Recovers(e, id, now, reserved) { OneMore(Places(e), e.rows[id].userId); }
  }

  lemma EditFits(e: Event, capacity: Option<nat>, now: Time)
    requires Fits(e)
    ensures Fits(EditCapacity(e, capacity, now)) <==> !Overbooks(e, Editing(capacity, now))
  {
    OccupiedArePlaces(e, now);
    assert Places(e.(capacity := capacity)) == Places(e);
  }

  lemma LeaveFits(e: Event, user: Uuid)
    requires Inv(e)
    ensures var e' := e.(attending := e.attending - {user}); Inv(e') && (Fits(e) ==> Fits(e'))
  {
    var e' := e.(attending := e.attending - {user});
    assert Places(e') <= Places(e);
    FewerPlaces(Places(e'), Places(e));
  }

  /** Every step keeps one active purchase per user, and keeps the event within its capacity unless it is one of those
      two, which always exceed it. */
  lemma StepFitsIff(e: Event, step: Step)
    requires Inv(e)
    ensures Inv(Apply(e, step))
    ensures Fits(e) ==> (Fits(Apply(e, step)) <==> !Overbooks(e, step))
  {
    match step
    case Creating(id, user, now, hold) => if id !in e.rows { CreateKeeps(e, id, user, now, hold); }
    case Changing(id, change) => if id in e.rows { ChangeKeeps(e, id, change); }
    case Recovering(id, now, reserved) => RecoverFits(e, id, now, reserved);
    case Editing(capacity, now) => if Fits(e) { EditFits(e, capacity, now); }
    case Leaving(user) => LeaveFits(e, user);
    case Closing => assert Places(e.(open := false)) == Places(e);
  }

  function After(e: Event, steps: seq<Step>): Event {
    if steps == [] then e else Apply(After(e, steps[..|steps| - 1]), steps[|steps| - 1])
  }

  /** In every run from an event without purchases that fits, the event stays within its capacity as long as no step is
      one of the two, and users never have two active purchases in any run. */
  lemma {:induction false} NeverOverbooked(e: Event, steps: seq<Step>)
    requires e.rows == map[] && Fits(e)
    ensures Inv(After(e, steps))
    ensures (forall i :: 0 <= i < |steps| ==> !Overbooks(After(e, steps[..i]), steps[i])) ==> Fits(After(e, steps))
  {
    if steps != [] {
      var front := steps[..|steps| - 1];
      NeverOverbooked(e, front);
      StepFitsIff(After(e, front), steps[|steps| - 1]);
      if forall i :: 0 <= i < |steps| ==> !Overbooks(After(e, steps[..i]), steps[i]) {
        forall i | 0 <= i < |front|
          ensures !Overbooks(After(e, front[..i]), front[i])
        {
          assert front[..i] == steps[..i];
        }
      }
    }
  }

  // ----- Two runs that overbook -----

  lemma AfterNext(e: Event, steps: seq<Step>, step: Step)
    ensures After(e, steps + [step]) == Apply(After(e, steps), step)
  {
    assert (steps + [step])[..|steps|] == steps;
  }

  function Empty(id: Uuid, capacity: nat): Event { Event(id, true, 1, 10, Some(capacity), {}, map[]) }

  /** A user's purchase that is created and submitted at once. */
  function BuySteps(a: Uuid, hash: string): seq<Step> {
    [Creating(a, a, 0, 1)] + [Changing(a, Submitting(a, hash, 0, 2, false, false))]
  }

  function Bought(id: Uuid, a: Uuid, hash: string): Purchase {
    NewPurchase(a, id, a, 1, None, 0).(status := Submitted, hash := Some(hash), deadlineAt := Some(2))
  }

  lemma Buy(id: Uuid, capacity: nat, a: Uuid, hash: string)
    requires capacity > 0
    ensures After(Empty(id, capacity), BuySteps(a, hash)) == Empty(id, capacity).(rows := map[a := Bought(id, a, hash)])
  {
    var e := Empty(id, capacity);
    var create := Creating(a, a, 0, 1);
    assert After(e, []) == e && [] + [create] == [create];
    AfterNext(e, [], create);
    assert Occupied(Lapse(e, 0), 0) == {};
    assert Lapse(e, 0).rows == map[] && !HasActive(Lapse(e, 0).rows, a);
    assert After(e, [create]) == Insert(Lapse(e, 0), Fresh(e, a, a, 0, 1));
    AfterNext(e, [create], Changing(a, Submitting(a, hash, 0, 2, false, false)));
    var submitted := Changed(Fresh(e, a, a, 0, 1), Submitting(a, hash, 0, 2, false, false));
    assert submitted == Bought(id, a, hash);
    assert After(e, BuySteps(a, hash)).rows == map[a := submitted];
  }

  /** The place of an expired purchase goes to somebody else, and then the expired one is recovered. */
  function RecoverySteps(a: Uuid, b: Uuid, hash: string): seq<Step> {
    BuySteps(a, hash) + [Changing(a, Expiring(2, 1))] + [Creating(b, b, 3, 1)]
  }

  lemma AfterExpiry(id: Uuid, a: Uuid, hash: string)
    ensures After(Empty(id, 1), BuySteps(a, hash) + [Changing(a, Expiring(2, 1))])
            == Empty(id, 1).(rows := map[a := Bought(id, a, hash).(status := Expired, updatedAt := 2)])
  {
    Buy(id, 1, a, hash);
    AfterNext(Empty(id, 1), BuySteps(a, hash), Changing(a, Expiring(2, 1)));
  }

  /** The whole place is free again for another user. */
  lemma SecondBuyer(e: Event, a: Uuid, b: Uuid)
    requires a != b && e.rows.Keys == {a} && e.rows[a].userId == a && e.rows[a].status == Expired && e.attending == {}
    requires e.open && e.endsAt > 3 && e.priceLunas > 0 && e.capacity == Some(1)
    ensures Apply(e, Creating(b, b, 3, 1)) == Insert(e, Fresh(e, b, b, 3, 1))
  {
    var lapsed := Lapse(e, 3);
    assert a in e.rows && lapsed.rows == e.rows;
    assert lapsed == e;
    forall k | k in lapsed.rows
      ensures k == a && !Active(lapsed.rows[k].status)
    {
      assert k in e.rows.Keys;
    }
    assert Occupied(lapsed, 3) == {};
    assert !HasActive(lapsed.rows, b);
  }

  /** A run that overbooks by a recovery: with room for one, a user buys and the purchase expires, another user buys, and
      the first purchase is recovered. */
  lemma RecoveryCanOverbook(id: Uuid, a: Uuid, b: Uuid, hash: string)
    requires a != b && IsHash(hash)
    ensures var e := After(Empty(id, 1), RecoverySteps(a, b, hash));
            && Fits(e) && Overbooks(e, Recovering(a, 5, true))
            && !Fits(After(Empty(id, 1), RecoverySteps(a, b, hash) + [Recovering(a, 5, true)]))
  {
    var expired := Empty(id, 1).(rows := map[a := Bought(id, a, hash).(status := Expired, updatedAt := 2)]);
    AfterExpiry(id, a, hash);
    SecondBuyer(expired, a, b);
    AfterNext(Empty(id, 1), BuySteps(a, hash) + [Changing(a, Expiring(2, 1))], Creating(b, b, 3, 1));
    var e := After(Empty(id, 1), RecoverySteps(a, b, hash));
    assert e == Insert(expired, Fresh(expired, b, b, 3, 1));
    HashIsNotBlank(hash);
    FullAgain(e, a, b);
    AfterNext(Empty(id, 1), RecoverySteps(a, b, hash), Recovering(a, 5, true));
    NeverOverbooked(Empty(id, 1), RecoverySteps(a, b, hash));
    StepFitsIff(e, Recovering(a, 5, true));
  }

  /** One place, held by b, and an expired payment of a that can be recovered. */
  lemma FullAgain(e: Event, a: Uuid, b: Uuid)
    requires a != b && e.rows.Keys == {a, b} && e.attending == {} && e.capacity == Some(1)
    requires e.rows[a].id == a && e.rows[a].userId == a && e.rows[a].status == Expired && !Blank(e.rows[a].hash)
    requires e.rows[b].id == b && e.rows[b].userId == b && Active(e.rows[b].status)
    ensures Fits(e) && Overbooks(e, Recovering(a, 5, true))
  {
    OnlyPlace(e, a, b);
    forall k | k in e.rows && k != a
      ensures e.rows[k].userId != a
    {
      assert k in e.rows.Keys;
    }
    assert !Rival(e.rows, e.rows[a]);
  }

  lemma OnlyPlace(e: Event, a: Uuid, b: Uuid)
    requires a != b && e.rows.Keys == {a, b} && e.attending == {}
    requires !Active(e.rows[a].status) && e.rows[b].userId == b && Active(e.rows[b].status)
    ensures Places(e) == {b} && |Places(e)| == 1
  {
    assert a in e.rows && b in e.rows;
    forall u | u in Places(e)
      ensures u in {b}
    {
      var k :| k in e.rows && Active(e.rows[k].status) && e.rows[k].userId == u;
      assert k in e.rows.Keys;
    }
    assert Places(e) == {b};
  }

  /** One user has paid, another holds a place, and the hold lapses. */
  function EditSteps(a: Uuid, b: Uuid, hash: string): seq<Step> {
    BuySteps(a, hash) + [Changing(a, Setting(Confirmed, 0))] + [Creating(b, b, 0, 1)]
  }

  lemma AfterPayment(id: Uuid, a: Uuid, hash: string)
    ensures After(Empty(id, 2), BuySteps(a, hash) + [Changing(a, Setting(Confirmed, 0))])
            == Empty(id, 2).(rows := map[a := Bought(id, a, hash).(status := Confirmed, confirmedAt := Some(0))])
  {
    Buy(id, 2, a, hash);
    AfterNext(Empty(id, 2), BuySteps(a, hash), Changing(a, Setting(Confirmed, 0)));
  }

  lemma SecondHolder(e: Event, a: Uuid, b: Uuid)
    requires a != b && e.rows.Keys == {a} && e.rows[a].userId == a && e.rows[a].status == Confirmed && e.attending == {}
    requires e.open && e.endsAt > 0 && e.priceLunas > 0 && e.capacity == Some(2)
    ensures Apply(e, Creating(b, b, 0, 1)) == Insert(e, Fresh(e, b, b, 0, 1))
  {
    var lapsed := Lapse(e, 0);
    assert a in e.rows && lapsed.rows == e.rows;
    assert lapsed == e;
    forall k | k in lapsed.rows
      ensures k == a
    {
      assert k in e.rows.Keys;
    }
    assert Occupied(lapsed, 0) == {a};
    assert !HasActive(lapsed.rows, b);
  }

  /** A has paid, and b's hold has lapsed unnoticed. */
  predicate PaidAndLapsed(e: Event, a: Uuid, b: Uuid) {
    && a != b && e.rows.Keys == {a, b} && e.attending == {}
    && e.rows[a].userId == a && e.rows[a].status == Confirmed
    && e.rows[b].id == b && e.rows[b].userId == b && Lapsed(e.rows[b], 1)
  }

  lemma UnseenHolder(e: Event, a: Uuid, b: Uuid)
    requires PaidAndLapsed(e, a, b) && e.capacity == Some(2) && e.open
    ensures Fits(e) && Overbooks(e, Editing(Some(1), 1)) && EditCapacity(e, Some(1), 1) == e.(capacity := Some(1))
  {
    OneOccupied(e, a, b, 1);
    BothPlaces(e, a, b);
    OccupiedArePlaces(e, 1);
  }

  /** A submission does not look at the hold. */
  lemma LateSubmission(p: Purchase, hash: string)
    requires Lapsed(p, 1)
    ensures var q := Changed(p, Submitting(p.userId, hash, 1, 2, false, false));
            q.id == p.id && q.userId == p.userId && q.status == Submitted
  {
  }

  lemma OverFull(e: Event, a: Uuid, b: Uuid, q: Purchase)
    requires PaidAndLapsed(e, a, b) && e.capacity == Some(1) && q.id == b && q.userId == b && Active(q.status)
    ensures !Fits(Insert(e, q))
  {
    BothPlaces(Insert(e, q), a, b);
  }

  lemma SubmitLate(e: Event, a: Uuid, b: Uuid, hash: string)
    requires PaidAndLapsed(e, a, b) && e.capacity == Some(1)
    ensures var late := Apply(e, Changing(b, Submitting(b, hash, 1, 2, false, false)));
            late.capacity == Some(1) && b in late.rows && late.rows[b].status == Submitted && !Fits(late)
  {
    assert b in e.rows;
    LateSubmission(e.rows[b], hash);
    OverFull(e, a, b, Changed(e.rows[b], Submitting(b, hash, 1, 2, false, false)));
  }

  lemma AfterHold(id: Uuid, a: Uuid, b: Uuid, hash: string)
    requires a != b
    ensures var e := After(Empty(id, 2), EditSteps(a, b, hash)); PaidAndLapsed(e, a, b) && e.capacity == Some(2) && e.open
  {
    var paid := Empty(id, 2).(rows := map[a := Bought(id, a, hash).(status := Confirmed, confirmedAt := Some(0))]);
    AfterPayment(id, a, hash);
    SecondHolder(paid, a, b);
    AfterNext(Empty(id, 2), BuySteps(a, hash) + [Changing(a, Setting(Confirmed, 0))], Creating(b, b, 0, 1));
  }

  /** A run that overbooks by an edit: with room for two, one user has paid and another's hold has lapsed unnoticed when
      the capacity is lowered to one; the other's submission is still accepted. */
  lemma EditCanOverbook(id: Uuid, a: Uuid, b: Uuid, hash: string, other: string)
    requires a != b
    ensures var e := After(Empty(id, 2), EditSteps(a, b, hash)); Fits(e) && Overbooks(e, Editing(Some(1), 1))
    ensures var steps := EditSteps(a, b, hash) + [Editing(Some(1), 1)];
            var late := After(Empty(id, 2), steps + [Changing(b, Submitting(b, other, 1, 2, false, false))]);
            late.capacity == Some(1) && b in late.rows && late.rows[b].status == Submitted && !Fits(late)
  {
    var edit, submit := Editing(Some(1), 1), Changing(b, Submitting(b, other, 1, 2, false, false));
    AfterHold(id, a, b, hash);
    UnseenHolder(After(Empty(id, 2), EditSteps(a, b, hash)), a, b);
    AfterNext(Empty(id, 2), EditSteps(a, b, hash), edit);
    AfterNext(Empty(id, 2), EditSteps(a, b, hash) + [edit], submit);
    SubmitLate(After(Empty(id, 2), EditSteps(a, b, hash) + [edit]), a, b, other);
  }

  lemma BothPlaces(e: Event, a: Uuid, b: Uuid)
    requires a != b && e.rows.Keys == {a, b} && e.attending == {}
    requires e.rows[a].userId == a && Active(e.rows[a].status) && e.rows[b].userId == b && Active(e.rows[b].status)
    ensures |Places(e)| == 2
  {
    assert a in e.rows && b in e.rows;
    forall u | u in Places(e)
      ensures u == a || u == b
    {
      var k :| k in e.rows && Active(e.rows[k].status) && e.rows[k].userId == u;
      assert k in e.rows.Keys;
    }
    assert a in Places(e) && b in Places(e);
    assert Places(e) == {a} + {b};
    OneMore({a}, b);
  }

  lemma OneOccupied(e: Event, a: Uuid, b: Uuid, now: Time)
    requires a != b && e.rows.Keys == {a, b} && e.attending == {}
    requires e.rows[a].userId == a && Active(e.rows[a].status) && !Lapsed(e.rows[a], now) && Lapsed(e.rows[b], now)
    ensures |Occupied(e, now)| == 1
  {
    assert a in e.rows && b in e.rows;
    forall u | u in Occupied(e, now)
      ensures u in {a}
    {
      var k :| k in e.rows && Active(e.rows[k].status) && !Lapsed(e.rows[k], now) && e.rows[k].userId == u;
      assert k in e.rows.Keys;
    }
    assert Occupied(e, now) == {a};
  }
}
