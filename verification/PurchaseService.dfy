/** The purchase repository and use case in their mutable form, proved against Purchases. */
module PurchaseService {
  import opened NimiqTx
  import opened Payment
  import opened Purchases
  import opened RealtimeEvents
  import opened Rooms
  import Seats
  import opened Text

  type Table = map<Uuid, Purchase>

  ghost predicate Keyed(rows: Table) { forall id :: id in rows ==> rows[id].id == id }

  /** A row by its id, for its owner only. */
  function Found(rows: Table, id: Uuid, userId: Uuid): Option<Purchase> {
    if id in rows && rows[id].userId == userId then Some(rows[id]) else None
  }

  /** No row but one has changed, and none has come or gone. */
  ghost predicate OthersUnchanged(before: Table, after: Table, id: Uuid) {
    before.Keys == after.Keys && forall k :: k in before && k != id ==> after[k] == before[k]
  }

  function OfEvent(rows: Table, eventId: Uuid): Table { map k | k in rows && rows[k].eventId == eventId :: rows[k] }

  /** Lapsing an event's holds changes its rows in place. */
  lemma LapsedRows(rows: Table, e: Seats.Event, now: Time)
    requires Keyed(rows) && e.rows == OfEvent(rows, e.id)
    ensures var lapsed := Seats.Lapse(e, now).rows;
            && rows + e.rows == rows && Keyed(rows + lapsed)
            && forall k :: k in lapsed ==> k in rows && lapsed[k].id == k && lapsed[k].eventId == e.id
  {
  }

  lemma InsertedRows(rows: Table, e: Seats.Event, p: Purchase)
    requires Keyed(rows + e.rows)
    ensures Keyed(rows + Seats.Insert(e, p).rows) && (rows + Seats.Insert(e, p).rows)[p.id] == p
  {
    assert rows + Seats.Insert(e, p).rows == (rows + e.rows)[p.id := p];
  }

  function Stored(rows: Table, row: Option<Purchase>): Table {
    if row.Some? then rows[row.value.id := row.value] else rows
  }

  /** Another purchase of the same user and event that the unique index counts as active once pending ones are gone. */
  predicate Rival(rows: Table, p: Purchase) {
    exists k :: k in rows && rows[k].id != p.id && rows[k].eventId == p.eventId && rows[k].userId == p.userId
                && rows[k].status in {Submitted, Verifying, Confirmed}
  }

  /** The hash of a purchase is reserved for this purchase. */
  predicate Owns(owners: Consumed, p: Purchase) { p.hash.Some? && Reserved(owners, p.hash.value, PurchaseKey(p.id)) }

  function Released(rows: Table, recovered: Purchase, now: Time): Table {
    map k | k in rows :: Release(rows[k], recovered, now)
  }

  function SubmitFor(rows: Table, owners: Consumed, id: Uuid, userId: Uuid, hash: string, now: Time, deadline: Time,
                     eventCancelled: bool): Result<Purchase>
  {
    var p := Found(rows, id, userId);
    if p.None? then Err(NotFound) else Submit(p.value, userId, hash, now, deadline, eventCancelled, Used(owners, hash))
  }

  function SubmitText(rows: Table, owners: Consumed, id: Uuid, userId: Uuid, raw: string, now: Time, deadline: Time,
                      eventCancelled: bool): Result<Purchase>
  {
    var hash := NormalHash(raw);
    if hash.None? then Err(InvalidHash) else SubmitFor(rows, owners, id, userId, hash.value, now, deadline, eventCancelled)
  }

  /** A purchase of somebody else is as good as missing, to every operation. */
  lemma ForeignIsMissing(rows: Table, id: Uuid, userId: Uuid, p: Purchase)
    ensures Found(rows, id, userId) == Some(p) <==> id in rows && rows[id] == p && p.userId == userId
  {
  }

  /** What is turned away as no hash, and under which hash anything else is stored: the normal form, which nobody has
      reserved before. */
  lemma SubmitTextIff(rows: Table, owners: Consumed, id: Uuid, userId: Uuid, raw: string, now: Time, deadline: Time,
                      cancelled: bool)
    ensures var s := SubmitText(rows, owners, id, userId, raw, now, deadline, cancelled);
            && (s == Err(InvalidHash) <==> !IsHash(TrimSpace(raw)))
            && (s.Ok? ==> id in rows && rows[id].userId == userId && s.value.hash == NormalHash(raw))
            && (s.Ok? && s.value != rows[id] ==> NormalHash(raw).value !in owners)
            && (s == Err(HashUsed) ==> NormalHash(raw).Some? && NormalHash(raw).value in owners)
  {
    NormalHashIff(raw);
  }

  lemma OwnsIff(owners: Consumed, p: Purchase)
    ensures Owns(owners, p) <==> exists h :: h in owners && p.hash == Some(h) && owners[h] == PurchaseKey(p.id)
  {
  }

  /** The rivals of a purchase are those of its own event. */
  lemma RivalIsSeats(rows: Table, e: Seats.Event, p: Purchase)
    requires Keyed(rows) && e.rows == OfEvent(rows, e.id) && p.eventId == e.id
    ensures Rival(rows, p) <==> Seats.Rival(e.rows, p)
  {
    if Seats.Rival(e.rows, p) {
      var k :| k in e.rows && k != p.id && e.rows[k].userId == p.userId && e.rows[k].status in {Submitted, Verifying, Confirmed};
      assert k in rows && rows[k].id != p.id;
    }
    if Rival(rows, p) {
      var k :| k in rows && rows[k].id != p.id && rows[k].eventId == p.eventId && rows[k].userId == p.userId
               && rows[k].status in {Submitted, Verifying, Confirmed};
      assert k in e.rows && e.rows[k] == rows[k];
    }
  }

  /** What a recovery writes: in the table of one event what the event's own recovery does, and nothing in any other. */
  lemma RecoveryIsSeats(rows: Table, e: Seats.Event, id: Uuid, now: Time, reserved: bool)
    requires Keyed(rows) && e.rows == OfEvent(rows, e.id) && id in e.rows && e.rows[id].status == Expired
    requires Recover(rows[id], now, reserved, Rival(rows, rows[id])).Ok?
    ensures var p := Recover(rows[id], now, reserved, Rival(rows, rows[id])).value;
            var after := Released(rows, p, now)[id := p];
            && OfEvent(after, e.id) == Seats.RecoverRow(e, id, now, reserved).rows
            && after.Keys == rows.Keys && forall k :: k in rows && rows[k].eventId != e.id ==> after[k] == rows[k]
  {
    RivalIsSeats(rows, e, rows[id]);
    var p := Recover(rows[id], now, reserved, Rival(rows, rows[id])).value;
    assert p.id == id && p.eventId == e.id;
    ReleasedInEvent(rows, e, p, now);
  }

  lemma ReleasedInEvent(rows: Table, e: Seats.Event, p: Purchase, now: Time)
    requires e.rows == OfEvent(rows, e.id) && p.id in e.rows && p.eventId == e.id
    ensures OfEvent(Released(rows, p, now)[p.id := p], e.id) == Seats.ReleaseAll(e, p, now).rows[p.id := p]
  {
  }

  class PurchaseRepo {
    var rows: Table
    const consumed: ConsumedTransactions

    constructor (consumed: ConsumedTransactions)
      ensures rows == map[] && this.consumed == consumed
    {
      rows, this.consumed := map[], consumed;
    }

    /** The insertion of a purchase for a locked event, given with the rows that are its own. */
    method Create(e: Seats.Event, id: Uuid, userId: Uuid, now: Time, holdDuration: Time)
      returns (outcome: Seats.Created, purchase: Option<Purchase>)
      requires Keyed(rows) && e.rows == OfEvent(rows, e.id) && id !in rows
      modifies this
      ensures Keyed(rows)
      ensures var c := Seats.Create(e, id, userId, now, holdDuration); outcome == c.1 && rows == old(rows) + c.0.rows
      ensures purchase.Some? <==> outcome == Seats.Existing || outcome == Seats.New
      ensures purchase.Some? ==>
                var p := purchase.value;
                p.id in rows && rows[p.id] == p && p.eventId == e.id && p.userId == userId && Seats.Active(p.status)
    {
      LapsedRows(rows, e, now);
      if !e.open {
        return Seats.NotOpen, None;
      }
      if e.endsAt <= now {
        return Seats.EventPast, None;
      }
      if e.priceLunas <= 0 {
        return Seats.NotPaid, None;
      }
      var lapsed := Seats.Lapse(e, now);
      if k :| k in lapsed.rows && lapsed.rows[k].userId == userId && Seats.Active(lapsed.rows[k].status) {
        assert Seats.HasActive(lapsed.rows, userId);
        purchase := Some(lapsed.rows[k]);
        rows := rows + lapsed.rows;
        return Seats.Existing, purchase;
      }
      if e.capacity.Some? && |Seats.Occupied(lapsed, now)| >= e.capacity.value {
        return Seats.SoldOut, None;
      }
      var created := Seats.Fresh(e, id, userId, now, holdDuration);
      InsertedRows(rows, lapsed, created);
      rows := rows + Seats.Insert(lapsed, created).rows;
      return Seats.New, Some(created);
    }

    /** One attempt at a time: a claim needs an unresolved row whose last claim has run out, lasts at least half a minute,
        and changes neither the status nor any other row. */
    method ClaimVerification(id: Uuid, userId: Uuid, now: Time, retry: Time, duration: Time, force: bool)
      returns (claimed: Option<Purchase>)
      requires Keyed(rows)
      modifies this
      ensures claimed == var p := Found(old(rows), id, userId);
                         if p.Some? then Claim(p.value, now, retry, duration, force) else None
      ensures rows == Stored(old(rows), claimed) && Keyed(rows) && OthersUnchanged(old(rows), rows, id)
      ensures claimed.None? ==> rows == old(rows)
      ensures claimed.Some? ==>
                var p, c := old(rows)[id], claimed.value;
                && Unresolved(p.status) && NoneOrPast(p.claimedUntil, now)
                && (!force ==> NoneOrPast(p.lastAttemptAt, now - if retry < 0 then 0 else retry))
                && c.status == p.status && c.hash == p.hash && c.deadlineAt == p.deadlineAt
                && c.claimedUntil.Some? && c.claimedUntil.value >= now + 30 * SECOND
    {
      if id !in rows || rows[id].userId != userId {
        return None;
      }
      var p := rows[id];
      var threshold := now - if retry < 0 then 0 else retry;
      if p.status != Submitted && p.status != Verifying {
        return None;
      }
      if p.claimedUntil.Some? && p.claimedUntil.value > now {
        return None;
      }
      if !force && p.lastAttemptAt.Some? && p.lastAttemptAt.value > threshold {
        return None;
      }
      rows := rows[id := p.(lastAttemptAt := Some(now), claimedUntil := Some(now + ClaimDuration(duration)))];
      claimed := Some(rows[id]);
    }

    /** A resolved or cancelled row is not touched; an unresolved one takes the outcome, and keeps the instant of an
        earlier confirmation. */
    method SetVerificationState(id: Uuid, userId: Uuid, status: Status, now: Time) returns (result: Result<Purchase>)
      requires Keyed(rows)
      modifies this
      ensures result == var p := Found(old(rows), id, userId);
                        if status !in {Verifying, Confirmed, Failed} then Err(InvalidState)
                        else if p.None? then Err(NotFound)
                        else Purchases.SetVerificationState(p.value, status, now)
      ensures rows == Stored(old(rows), if result.Ok? then Some(result.value) else None)
      ensures Keyed(rows) && OthersUnchanged(old(rows), rows, id)
      ensures id in old(rows) && !Unresolved(old(rows)[id].status) ==> rows == old(rows)
      ensures result.Ok? ==> id in rows && rows[id] == result.value && result.value.status == status
      ensures result.Ok? && old(rows)[id].confirmedAt.Some? ==> result.value.confirmedAt == old(rows)[id].confirmedAt
    {
      if status != Verifying && status != Confirmed && status != Failed {
        return Err(InvalidState);
      }
      if id !in rows || rows[id].userId != userId {
        return Err(NotFound);
      }
      var p := rows[id];
      if p.status == Submitted || p.status == Verifying {
        var confirmedAt := if status == Confirmed then Some(Coalesce(p.confirmedAt, now)) else p.confirmedAt;
        rows := rows[id := p.(status := status, holdExpiresAt := None, claimedUntil := None, confirmedAt := confirmedAt,
                              updatedAt := now)];
        return Ok(rows[id]);
      }
      if p.status == status {
        return Ok(p);
      }
      if p.status == Failed || p.status == Expired || p.status == Cancelled || p.status == Confirmed {
        return Err(StateTerminal);
      }
      return Err(StateChanged);
    }

    /** Only an unresolved row whose deadline has come expires; an unresolved row that is returned is not due. */
    method ExpireUnresolved(id: Uuid, userId: Uuid, now: Time, fallback: Time) returns (result: Result<Purchase>)
      requires Keyed(rows)
      modifies this
      ensures result == var p := Found(old(rows), id, userId);
                        if p.None? then Err(NotFound) else Ok(Purchases.ExpireUnresolved(p.value, now, fallback))
      ensures rows == Stored(old(rows), if result.Ok? then Some(result.value) else None)
      ensures Keyed(rows) && OthersUnchanged(old(rows), rows, id)
      ensures id in old(rows) && rows[id] != old(rows)[id] ==>
                var p := old(rows)[id];
                && Unresolved(p.status) && rows[id].status == Expired && rows[id].hash == p.hash
                && Coalesce(p.deadlineAt, p.updatedAt + FallbackDeadline(fallback)) <= now
      ensures result.Ok? && Unresolved(result.value.status) ==>
                Coalesce(result.value.deadlineAt, result.value.updatedAt + FallbackDeadline(fallback)) > now
    {
      if id !in rows || rows[id].userId != userId {
        return Err(NotFound);
      }
      var p := rows[id];
      var due := Coalesce(p.deadlineAt, p.updatedAt + FallbackDeadline(fallback));
      if (p.status == Submitted || p.status == Verifying) && due <= now {
        rows := rows[id := p.(status := Expired, holdExpiresAt := None, claimedUntil := None, updatedAt := now)];
      }
      result := Ok(rows[id]);
    }

    /** The row and the reservation of its hash change together or not at all. */
    method SubmitTransaction(id: Uuid, userId: Uuid, hash: string, now: Time, deadline: Time, eventCancelled: bool)
      returns (result: Result<Purchase>)
      requires Keyed(rows)
      modifies this, consumed
      ensures result == SubmitFor(old(rows), old(consumed.owners), id, userId, hash, now, deadline, eventCancelled)
      ensures rows == Stored(old(rows), if result.Ok? then Some(result.value) else None) && Keyed(rows)
      ensures consumed.owners == if result.Ok? && result.value != old(rows)[id]
                                 then old(consumed.owners)[hash := PurchaseKey(id)]
                                 else old(consumed.owners)
    {
      if id !in rows || rows[id].userId != userId {
        return Err(NotFound);
      }
      var current := rows[id];
      if current.hash == Some(hash) && current.status in {Submitted, Verifying, Confirmed} {
        return Ok(current);
      }
      if eventCancelled {
        return Err(EventCancelled);
      }
      if current.status != Pending {
        return Err(NotSubmittable);
      }
      var reserved := consumed.Consume(hash, PurchaseKey(id));
      if !reserved {
        return Err(HashUsed);
      }
      rows := rows[id := current.(status := Submitted, hash := Some(hash), holdExpiresAt := None, deadlineAt := Some(deadline),
                                  lastAttemptAt := None, claimedUntil := None, updatedAt := now)];
      result := Ok(rows[id]);
    }

    /** The only way from expired to confirmed. */
    method ConfirmExpiredRecovery(id: Uuid, userId: Uuid, now: Time) returns (result: Result<Purchase>)
      requires Keyed(rows)
      modifies this
      ensures result == var p := Found(old(rows), id, userId);
                        if p.None? then Err(NotFound)
                        else Recover(p.value, now, Owns(old(consumed.owners), p.value), Rival(old(rows), p.value))
      ensures Keyed(rows)
      ensures result.Ok? && rows != old(rows) ==>
                var p := old(rows)[id];
                && p.status == Expired && p.hash.Some? && p.hash.value in consumed.owners
                && consumed.owners[p.hash.value] == PurchaseKey(id)
      ensures rows == if result.Ok? && old(rows)[id].status != Confirmed
                      then Released(old(rows), result.value, now)[id := result.value] else old(rows)
    {
      if id !in rows || rows[id].userId != userId {
        return Err(NotFound);
      }
      var current := rows[id];
      if current.status == Confirmed {
        return Ok(current);
      }
      if current.status != Expired || Blank(current.hash) {
        return Err(NotRecoverable);
      }
      if !Owns(consumed.owners, current) {
        return Err(NotReserved);
      }
      if Rival(rows, current) {
        return Err(StateConflict);
      }
      result := Recover(current, now, true, false);
      rows := Released(rows, result.value, now)[id := result.value];
    }
  }

  // ----- The use case -----

  /** What a batch of reconciliations leaves in the table, publishes and reports. */
  datatype Batch = Batch(rows: Table, published: seq<StatusChanged>, reports: seq<Report>)

  function ReconcileOne(rows: Table, c: Purchase, policy: Policy, pass: Pass): Outcome {
    Purchases.Reconcile(Found(rows, c.id, c.userId), c, policy, pass)
  }

  /** Reconcile, branch by branch. */
  lemma ReconcileCases(row: Option<Purchase>, c: Purchase, policy: Policy, pass: Pass)
    ensures var claimed, o := ClaimFor(row, c, pass.now, policy), Purchases.Reconcile(row, c, policy, pass);
            o == if !Unresolved(c.status) then Outcome(row, c, Opening(c), [])
                 else if claimed.None? then Outcome(row, c, Opening(c).(category := ClassClaimUnavailable), [])
                 else Act(claimed, c, claimed.value, Decide(pass.answer, Stale(c, pass.now, policy)), pass.later, policy)
  {
  }

  function ReconcileAll(rows: Table, candidates: seq<Purchase>, policy: Policy, passes: seq<Pass>): Batch
    requires |candidates| == |passes|
  {
    if candidates == [] then Batch(rows, [], [])
    else
      var n := |candidates| - 1;
      var b := ReconcileAll(rows, candidates[..n], policy, passes[..n]);
      var o := ReconcileOne(b.rows, candidates[n], policy, passes[n]);
      Batch(Stored(b.rows, o.row), b.published + o.events, b.reports + [o.report])
  }

  lemma StoredTwice(rows: Table, p: Purchase, row: Option<Purchase>)
    requires row.Some? && row.value.id == p.id
    ensures Stored(Stored(rows, Some(p)), row) == Stored(rows, row)
  {
  }

  lemma StoredSame(rows: Table, id: Uuid, userId: Uuid)
    requires Keyed(rows)
    ensures Stored(rows, Found(rows, id, userId)) == rows
  {
  }

  lemma ReconcileAllNext(rows: Table, candidates: seq<Purchase>, policy: Policy, passes: seq<Pass>, i: nat)
    requires |candidates| == |passes| && i < |candidates|
    ensures var b := ReconcileAll(rows, candidates[..i], policy, passes[..i]);
            var o := ReconcileOne(b.rows, candidates[i], policy, passes[i]);
            ReconcileAll(rows, candidates[..i + 1], policy, passes[..i + 1])
            == Batch(Stored(b.rows, o.row), b.published + o.events, b.reports + [o.report])
  {
    assert candidates[..i + 1][..i] == candidates[..i] && passes[..i + 1][..i] == passes[..i];
  }

  lemma ReconcileKeepsIdentity(row: Option<Purchase>, c: Purchase, policy: Policy, pass: Pass)
    ensures var o := Purchases.Reconcile(row, c, policy, pass);
            && (o.row.Some? <==> row.Some?)
            && (o.row.Some? ==> o.row.value.id == row.value.id && o.row.value.userId == row.value.userId)
  {
  }

  class PurchaseUseCase {
    const repo: PurchaseRepo
    const policy: Policy
    var published: seq<StatusChanged>

    constructor (repo: PurchaseRepo, policy: Policy)
      ensures this.repo == repo && this.policy == Normalize(policy) && published == []
    {
      this.repo, this.policy, published := repo, Normalize(policy), [];
    }

    method PublishStatus(p: Purchase)
      modifies this`published
      ensures published == old(published) + Announce(p)
    {
      var kind := EventPurchaseEventType(StatusText(p.status));
      if kind == "" {
        return;
      }
      var users := UniqueUserIds([p.userId]);
      var event := StatusChanged(kind, p.id, StatusText(p.status), users);
      published := published + [event];
      if p.status == Confirmed {
        published := published + [event.(kind := WALLET_ACTIVITY_CHANGED)];
      }
    }

    method PersistVerificationState(claimed: Purchase, status: Status, report: Report, category: Class, now: Time)
      returns (updated: Purchase, result: Report)
      requires Keyed(repo.rows)
      modifies repo, this`published
      ensures Keyed(repo.rows)
      ensures var p := Found(old(repo.rows), claimed.id, claimed.userId);
              if p.None? || Purchases.SetVerificationState(p.value, status, now).Err? then
                && repo.rows == old(repo.rows) && published == old(published)
                && updated == claimed && result == report.(category := ClassStateUpdateError)
              else
                var o := Written(Purchases.SetVerificationState(p.value, status, now).value, claimed, report, category);
                && repo.rows == Stored(old(repo.rows), o.row) && published == old(published) + o.events
                && updated == o.returned && result == o.report
    {
      var r := repo.SetVerificationState(claimed.id, claimed.userId, status, now);
      if r.Err? {
        return claimed, report.(category := ClassStateUpdateError);
      }
      updated, result := r.value, report.(after := r.value.status, category := category);
      if updated.status != claimed.status {
        PublishStatus(updated);
      }
    }

    method ExpireStale(claimed: Purchase, report: Report, now: Time) returns (updated: Purchase, result: Report)
      requires Keyed(repo.rows)
      modifies repo, this`published
      ensures Keyed(repo.rows)
      ensures var p := Found(old(repo.rows), claimed.id, claimed.userId);
              if p.None? then
                && repo.rows == old(repo.rows) && published == old(published)
                && updated == claimed && result == report.(category := ClassStateUpdateError)
              else
                var o := Written(Purchases.ExpireUnresolved(p.value, now, policy.deadline), claimed, report, ClassStaleExpired);
                && repo.rows == Stored(old(repo.rows), o.row) && published == old(published) + o.events
                && updated == o.returned && result == o.report
    {
      var r := repo.ExpireUnresolved(claimed.id, claimed.userId, now, policy.deadline);
      if r.Err? {
        return claimed, report.(category := ClassStateUpdateError);
      }
      updated, result := r.value, report.(after := r.value.status, category := ClassStaleExpired);
      if updated.status != claimed.status {
        PublishStatus(updated);
      }
    }

    /** One reconciliation, for any candidate, whether or not its row is still there. */
    method ReconcilePurchase(candidate: Purchase, pass: Pass) returns (updated: Purchase, result: Report)
      requires Keyed(repo.rows)
      modifies repo, this`published
      ensures Keyed(repo.rows)
      ensures var o := ReconcileOne(old(repo.rows), candidate, policy, pass);
              && repo.rows == Stored(old(repo.rows), o.row) && published == old(published) + o.events
              && updated == o.returned && result == o.report
    {
      ghost var row := Found(repo.rows, candidate.id, candidate.userId);
      ReconcileCases(row, candidate, policy, pass);
      StoredSame(repo.rows, candidate.id, candidate.userId);
      updated, result := candidate, Report(candidate.id, candidate.status, candidate.status, NoClass);
      if candidate.status != Submitted && candidate.status != Verifying {
        return;
      }
      var stale := Stale(candidate, pass.now, policy);
      var claimed := repo.ClaimVerification(candidate.id, candidate.userId, pass.now, policy.interval, policy.interval, stale);
      if claimed.None? {
        result := result.(category := ClassClaimUnavailable);
        return;
      }
      assert Found(repo.rows, candidate.id, candidate.userId) == claimed;
      ReconcileKeepsIdentity(row, candidate, policy, pass);
      StoredTwice(old(repo.rows), claimed.value, Purchases.Reconcile(row, candidate, policy, pass).row);
      updated, result := Resolve(candidate, claimed.value, stale, pass.answer, result, pass.later);
    }

    /** Acting on the verifier's answer about a claimed row. */
    method Resolve(candidate: Purchase, claimed: Purchase, stale: bool, answer: Answer, report: Report, now: Time)
      returns (updated: Purchase, result: Report)
      requires Keyed(repo.rows) && report == Opening(candidate)
      requires claimed.id == candidate.id && claimed.userId == candidate.userId
      modifies repo, this`published
      ensures Keyed(repo.rows)
      ensures var row := Found(old(repo.rows), candidate.id, candidate.userId);
              var o := Act(row, candidate, claimed, Decide(answer, stale), now, policy);
              && repo.rows == Stored(old(repo.rows), o.row) && published == old(published) + o.events
              && updated == o.returned && result == o.report
    {
      updated, result := candidate, report;
      match answer
      case IsConfirmed => updated, result := PersistVerificationState(claimed, Confirmed, report, ClassConfirmed, now);
      case IsInvalid => updated, result := PersistVerificationState(claimed, Failed, report, ClassInvalid, now);
      case IsNotFinal =>
        if stale {
          updated, result := ExpireStale(claimed, report, now);
        } else {
          updated, result := PersistVerificationState(claimed, Verifying, report, ClassNotFinal, now);
        }
      case IsNotFound =>
        if stale {
          updated, result := ExpireStale(claimed, report, now);
        } else {
          result := report.(category := ClassNotFound);
        }
      case _ =>
        if stale {
          updated, result := ExpireStale(claimed, report, now);
        } else {
          result := report.(category := ClassTransient);
        }
    }

    /** One pass over a batch; an individual failure does not stop it. */
    method Reconcile(candidates: seq<Purchase>, passes: seq<Pass>) returns (reports: seq<Report>)
      requires Keyed(repo.rows) && |candidates| == |passes|
      modifies repo, this`published
      ensures Keyed(repo.rows)
      ensures Batch(repo.rows, published, reports)
              == var b := ReconcileAll(old(repo.rows), candidates, policy, passes);
                 b.(published := old(published) + b.published)
    {
      reports := [];
      ghost var rows, told := repo.rows, published;
      for i := 0 to |candidates|
        invariant Keyed(repo.rows)
        invariant var b := ReconcileAll(rows, candidates[..i], policy, passes[..i]);
                  repo.rows == b.rows && published == told + b.published && reports == b.reports
      {
        ghost var b := ReconcileAll(rows, candidates[..i], policy, passes[..i]);
        ghost var o := ReconcileOne(b.rows, candidates[i], policy, passes[i]);
        var _, result := ReconcilePurchase(candidates[i], passes[i]);
        reports := reports + [result];
        ReconcileAllNext(rows, candidates, policy, passes, i);
        Associates(told, b.published, o.events);
      }
      assert candidates[..|candidates|] == candidates && passes[..|passes|] == passes;
    }

    /** The hash is stored in its normal form, published, and verified once at once. */
    method SubmitTransaction(id: Uuid, userId: Uuid, raw: string, now: Time, eventCancelled: bool, pass: Pass)
      returns (result: Result<Purchase>, ghost s: Result<Purchase>)
      requires Keyed(repo.rows)
      modifies repo, repo.consumed, this`published
      ensures Keyed(repo.rows)
      ensures s == SubmitText(old(repo.rows), old(repo.consumed.owners), id, userId, raw, now, now + policy.deadline,
                              eventCancelled)
      ensures s.Err? ==>
                && result == s && repo.rows == old(repo.rows) && published == old(published)
                && repo.consumed.owners == old(repo.consumed.owners)
      ensures s.Ok? ==>
                var o := Purchases.Reconcile(Some(s.value), s.value, policy, pass);
                && result == Ok(o.returned) && repo.rows == Stored(old(repo.rows), o.row)
                && published == old(published) + (if s.value.status == Submitted then Announce(s.value) else []) + o.events
      ensures s.Ok? ==>
                repo.consumed.owners == if s.value == old(repo.rows)[id] then old(repo.consumed.owners)
                                        else old(repo.consumed.owners)[NormalHash(raw).value := PurchaseKey(id)]
    {
      var hash := NormalHash(raw);
      if hash.None? {
        return Err(InvalidHash), Err(InvalidHash);
      }
      var submitted := repo.SubmitTransaction(id, userId, hash.value, now, now + policy.deadline, eventCancelled);
      s := submitted;
      assert s == SubmitText(old(repo.rows), old(repo.consumed.owners), id, userId, raw, now, now + policy.deadline,
                             eventCancelled);
      if submitted.Err? {
        return submitted, s;
      }
      var updated := VerifySubmitted(submitted.value, pass);
      ghost var o := Purchases.Reconcile(Some(s.value), s.value, policy, pass);
      StoredTwice(old(repo.rows), s.value, o.row);
      result := Ok(updated);
    }

    /** What follows an accepted submission. */
    method VerifySubmitted(p: Purchase, pass: Pass) returns (updated: Purchase)
      requires Keyed(repo.rows) && Found(repo.rows, p.id, p.userId) == Some(p)
      modifies repo, this`published
      ensures Keyed(repo.rows)
      ensures var o := Purchases.Reconcile(Some(p), p, policy, pass);
              && o.row.Some? && o.row.value.id == p.id
              && updated == o.returned && repo.rows == Stored(old(repo.rows), o.row)
              && published == old(published) + (if p.status == Submitted then Announce(p) else []) + o.events
    {
      ReconcileKeepsIdentity(Some(p), p, policy, pass);
      if p.status == Submitted {
        PublishStatus(p);
      }
      assert published == old(published) + if p.status == Submitted then Announce(p) else [];
      var u, _ := ReconcilePurchase(p, pass);
      updated := u;
    }

    /** Asks again about an expired purchase with a hash; only "confirmed" changes anything. */
    method RecoverExpired(id: Uuid, userId: Uuid, answer: Answer, now: Time) returns (result: Result<Purchase>)
      requires Keyed(repo.rows)
      modifies repo, this`published
      ensures Keyed(repo.rows)
      ensures var p := Found(old(repo.rows), id, userId);
              if p.None? then
                result == Err(NotFound) && repo.rows == old(repo.rows) && published == old(published)
              else if p.value.status != Expired || Blank(p.value.hash) || answer != IsConfirmed then
                && repo.rows == old(repo.rows) && published == old(published)
                && result == if p.value.status == Confirmed || (p.value.status == Expired && !Blank(p.value.hash))
                             then Ok(p.value) else Err(NotRecoverable)
              else
                var r := Recover(p.value, now, Owns(repo.consumed.owners, p.value), Rival(old(repo.rows), p.value));
                && result == r
                && repo.rows == (if r.Ok? then Released(old(repo.rows), r.value, now)[id := r.value] else old(repo.rows))
                && published == old(published) + if r.Ok? then Announce(r.value) else []
    {
      if id !in repo.rows || repo.rows[id].userId != userId {
        return Err(NotFound);
      }
      var purchase := repo.rows[id];
      var before := purchase.status;
      if before == Confirmed {
        return Ok(purchase);
      }
      if before != Expired || Blank(purchase.hash) {
        return Err(NotRecoverable);
      }
      if answer != IsConfirmed {
        return Ok(purchase);
      }
      result := repo.ConfirmExpiredRecovery(id, userId, now);
      if result.Ok? && result.value.status != before {
        PublishStatus(result.value);
      }
    }
  }

  // ----- Batches -----

  ghost predicate DistinctIds(ps: seq<Purchase>) { forall i, j :: 0 <= i < j < |ps| ==> ps[i].id != ps[j].id }

  lemma StoredOne(rows: Table, row: Option<Purchase>, id: Uuid, userId: Uuid, other: Uuid, owner: Uuid)
    requires Keyed(rows) && (row.Some? <==> Found(rows, id, userId).Some?)
    requires row.Some? ==> row.value.id == id && row.value.userId == userId
    ensures var now := Stored(rows, row);
            && Keyed(now) && now.Keys == rows.Keys && Found(now, id, userId) == row
            && (other != id ==> Found(now, other, owner) == Found(rows, other, owner))
            && (other != id && other in rows ==> now[other] == rows[other])
  {
  }

  /** What a batch has done to the row of candidate i. */
  ghost predicate Alone(b: Batch, rows: Table, c: Purchase, policy: Policy, pass: Pass, i: nat) {
    var o := ReconcileOne(rows, c, policy, pass);
    i < |b.reports| && b.reports[i] == o.report && Found(b.rows, c.id, c.userId) == o.row
  }

  /** What the candidates publish one after another, each on its own. */
  function EventsInTurn(rows: Table, candidates: seq<Purchase>, policy: Policy, passes: seq<Pass>): seq<StatusChanged>
    requires |candidates| == |passes|
  {
    if candidates == [] then []
    else
      var n := |candidates| - 1;
      EventsInTurn(rows, candidates[..n], policy, passes[..n]) + ReconcileOne(rows, candidates[n], policy, passes[n]).events
  }

  /** A batch over different rows treats each row as if it were alone, and publishes in the order of the batch. */
  lemma {:induction false} BatchIsPointwise(rows: Table, candidates: seq<Purchase>, policy: Policy, passes: seq<Pass>)
    requires |candidates| == |passes| && DistinctIds(candidates) && Keyed(rows)
    ensures var b := ReconcileAll(rows, candidates, policy, passes);
            && Keyed(b.rows) && b.rows.Keys == rows.Keys && |b.reports| == |candidates|
            && b.published == EventsInTurn(rows, candidates, policy, passes)
            && forall i :: 0 <= i < |candidates| ==> Alone(b, rows, candidates[i], policy, passes[i], i)
  {
    if candidates != [] {
      var n := |candidates| - 1;
      var c, front := candidates[n], ReconcileAll(rows, candidates[..n], policy, passes[..n]);
      BatchIsPointwise(rows, candidates[..n], policy, passes[..n]);
      BatchSparesOthers(rows, candidates[..n], policy, passes[..n], c.id);
      var o := ReconcileOne(rows, c, policy, passes[n]);
      assert ReconcileOne(front.rows, c, policy, passes[n]) == o;
      ReconcileKeepsIdentity(Found(rows, c.id, c.userId), c, policy, passes[n]);
      StoredOne(front.rows, o.row, c.id, c.userId, c.id, c.userId);
      forall i | 0 <= i < n
        ensures Alone(ReconcileAll(rows, candidates, policy, passes), rows, candidates[i], policy, passes[i], i)
      {
        assert Alone(front, rows, candidates[..n][i], policy, passes[..n][i], i);
        StoredOne(front.rows, o.row, c.id, c.userId, candidates[i].id, candidates[i].userId);
      }
    }
  }

  /** And it touches no other row. */
  lemma {:induction false} BatchSparesOthers(rows: Table, candidates: seq<Purchase>, policy: Policy, passes: seq<Pass>,
                                             id: Uuid)
    requires |candidates| == |passes| && Keyed(rows)
    requires forall i :: 0 <= i < |candidates| ==> candidates[i].id != id
    ensures var b := ReconcileAll(rows, candidates, policy, passes);
            Keyed(b.rows) && b.rows.Keys == rows.Keys && (id in rows ==> b.rows[id] == rows[id])
  {
    if candidates != [] {
      var n := |candidates| - 1;
      var c, front := candidates[n], ReconcileAll(rows, candidates[..n], policy, passes[..n]);
      BatchSparesOthers(rows, candidates[..n], policy, passes[..n], id);
      var row := Found(front.rows, c.id, c.userId);
      ReconcileKeepsIdentity(row, c, policy, passes[n]);
      StoredOne(front.rows, ReconcileOne(front.rows, c, policy, passes[n]).row, c.id, c.userId, id, id);
    }
  }
}
