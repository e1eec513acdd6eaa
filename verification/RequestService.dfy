/** The payment-request repository and use case in their mutable form, proved against Requests. */
module RequestService {
  import opened NimiqTx
  import opened Payment
  import opened RealtimeEvents
  import opened Requests
  import opened Rooms
  import opened Text

  type Table = map<Uuid, Request>

  ghost predicate Keyed(rows: Table) { forall id :: id in rows ==> rows[id].id == id }

  function Find(rows: Table, id: Uuid): Option<Request> { if id in rows then Some(rows[id]) else None }

  function Stored(rows: Table, row: Option<Request>): Table {
    if row.Some? then rows[row.value.id := row.value] else rows
  }

  /** No row but one has changed, and none has come or gone. */
  ghost predicate OthersUnchanged(before: Table, after: Table, id: Uuid) {
    before.Keys == after.Keys && forall k :: k in before && k != id ==> after[k] == before[k]
  }

  /** The unique index from public ids to rows. */
  ghost predicate Indexed(rows: Table, index: map<Uuid, Uuid>) {
    forall p :: p in index ==> index[p] in rows && rows[index[p]].publicId == p
  }

  function Located(rows: Table, index: map<Uuid, Uuid>, publicId: Uuid): Option<Request> {
    if publicId in index then Find(rows, index[publicId]) else None
  }

  /** The hash of a request is reserved for this request. */
  predicate Owns(owners: Consumed, r: Request) { r.hash.Some? && Reserved(owners, r.hash.value, RequestKey(r.id)) }

  function SubmitFor(row: Option<Request>, owners: Consumed, payerId: Uuid, hash: string, now: Time, deadline: Time)
    : Result<Request>
  {
    if row.None? then Err(NotFound) else Submit(row.value, payerId, hash, now, deadline, Used(owners, hash))
  }

  function SubmitText(row: Option<Request>, owners: Consumed, payerId: Uuid, raw: string, now: Time, deadline: Time)
    : Result<Request>
  {
    var hash := NormalHash(raw);
    if hash.None? then Err(InvalidHash) else SubmitFor(row, owners, payerId, hash.value, now, deadline)
  }

  /** What is turned away as no hash, and under which hash anything else is stored: the normal form, which nobody has
      reserved before. */
  lemma SubmitTextIff(row: Option<Request>, owners: Consumed, payerId: Uuid, raw: string, now: Time, deadline: Time)
    ensures var s := SubmitText(row, owners, payerId, raw, now, deadline);
            && (s == Err(InvalidHash) <==> !IsHash(TrimSpace(raw)))
            && (s.Ok? ==> row.Some? && s.value.hash == NormalHash(raw) && s.value.payerId == Some(payerId))
            && (s.Ok? && s.value != row.value ==> NormalHash(raw).value !in owners)
            && (s == Err(HashUsed) ==> NormalHash(raw).Some? && NormalHash(raw).value in owners)
  {
    NormalHashIff(raw);
  }

  lemma OwnsIff(owners: Consumed, r: Request)
    ensures Owns(owners, r) <==> exists h :: h in owners && r.hash == Some(h) && owners[h] == RequestKey(r.id)
  {
  }

  function Kept(result: Result<Request>): Option<Request> { if result.Ok? then Some(result.value) else None }

  class RequestRepo {
    var rows: Table
    var index: map<Uuid, Uuid>
    const consumed: ConsumedTransactions

    ghost predicate Valid()
      reads this
    {
      Keyed(rows) && Indexed(rows, index)
    }

    constructor (consumed: ConsumedTransactions)
      ensures rows == map[] && index == map[] && this.consumed == consumed && Valid()
    {
      rows, index, this.consumed := map[], map[], consumed;
    }

    method Create(request: Request)
      requires Valid() && request.id !in rows && request.publicId !in index
      modifies this`rows, this`index
      ensures Valid()
      ensures rows == old(rows)[request.id := request] && index == old(index)[request.publicId := request.id]
      ensures Located(rows, index, request.publicId) == Some(request)
    {
      rows, index := rows[request.id := request], index[request.publicId := request.id];
    }

    /** A read by public id expires the row first if it is due. */
    method GetByPublicId(publicId: Uuid, now: Time) returns (result: Result<Request>)
      requires Valid()
      modifies this`rows
      ensures Valid()
      ensures var r := Located(old(rows), index, publicId);
              && result == (if r.None? then Err(NotFound) else Ok(ExpirePending(r.value, now)))
              && rows == Stored(old(rows), Kept(result))
    {
      if publicId !in index {
        return Err(NotFound);
      }
      var id := index[publicId];
      if rows[id].status == Pending && rows[id].expiresAt <= now {
        rows := rows[id := rows[id].(status := Expired, updatedAt := now)];
      }
      result := Ok(rows[id]);
    }

    /** One attempt at a time: a claim needs an unresolved row whose last claim has run out, lasts at least half a minute,
        and changes neither the status nor any other row. */
    method ClaimVerification(id: Uuid, now: Time, retry: Time, duration: Time, force: bool) returns (claimed: Option<Request>)
      requires Valid()
      modifies this`rows
      ensures claimed == if id in old(rows) then Claim(old(rows)[id], now, retry, duration, force) else None
      ensures rows == Stored(old(rows), claimed) && Valid() && OthersUnchanged(old(rows), rows, id)
      ensures claimed.None? ==> rows == old(rows)
      ensures claimed.Some? ==>
                var r, c := old(rows)[id], claimed.value;
                && Unresolved(r.status) && NoneOrPast(r.claimedUntil, now)
                && (!force ==> NoneOrPast(r.lastAttemptAt, now - if retry < 0 then 0 else retry))
                && c.status == r.status && c.hash == r.hash && c.payerId == r.payerId && c.deadlineAt == r.deadlineAt
                && c.claimedUntil.Some? && c.claimedUntil.value >= now + 30 * SECOND
    {
      if id !in rows {
        return None;
      }
      var r := rows[id];
      if r.status != Submitted && r.status != Verifying {
        return None;
      }
      if !NoneOrPast(r.claimedUntil, now) || !(force || NoneOrPast(r.lastAttemptAt, now - if retry < 0 then 0 else retry)) {
        return None;
      }
      rows := rows[id := r.(lastAttemptAt := Some(now), claimedUntil := Some(now + ClaimDuration(duration)))];
      claimed := Some(rows[id]);
    }

    /** A resolved or cancelled row is not touched; an unresolved one takes the outcome, and keeps the instant of an
        earlier payment. */
    method SetVerificationState(id: Uuid, status: Status, now: Time) returns (result: Result<Request>)
      requires Valid()
      modifies this`rows
      ensures result == if status !in {Verifying, Paid, Failed} then Err(InvalidState)
                        else if id in old(rows) then Requests.SetVerificationState(old(rows)[id], status, now)
                        else Err(NotFound)
      ensures rows == Stored(old(rows), Kept(result)) && Valid() && OthersUnchanged(old(rows), rows, id)
      ensures id in old(rows) && !Unresolved(old(rows)[id].status) ==> rows == old(rows)
      ensures result.Ok? ==> id in rows && rows[id] == result.value && result.value.status == status
      ensures result.Ok? && old(rows)[id].paidAt.Some? ==> result.value.paidAt == old(rows)[id].paidAt
    {
      if status != Verifying && status != Paid && status != Failed {
        return Err(InvalidState);
      }
      if id !in rows {
        return Err(NotFound);
      }
      var r := rows[id];
      if r.status == Submitted || r.status == Verifying {
        var paidAt := if status == Paid then Some(Coalesce(r.paidAt, now)) else r.paidAt;
        rows := rows[id := r.(status := status, claimedUntil := None, paidAt := paidAt, updatedAt := now)];
        return Ok(rows[id]);
      }
      if r.status == status {
        return Ok(r);
      }
      if r.status == Paid || r.status == Failed || r.status == Expired || r.status == Cancelled {
        return Err(StateTerminal);
      }
      return Err(StateChanged);
    }

    /** Only an unresolved row whose deadline has come expires; an unresolved row that is returned is not due. */
    method ExpireUnresolved(id: Uuid, now: Time, fallback: Time) returns (result: Result<Request>)
      requires Valid()
      modifies this`rows
      ensures result == if id in old(rows) then Ok(Requests.ExpireUnresolved(old(rows)[id], now, fallback)) else Err(NotFound)
      ensures rows == Stored(old(rows), Kept(result)) && Valid() && OthersUnchanged(old(rows), rows, id)
      ensures id in old(rows) && rows[id] != old(rows)[id] ==>
                var r := old(rows)[id];
                && Unresolved(r.status) && rows[id].status == Expired && rows[id].hash == r.hash
                && Coalesce(r.deadlineAt, r.updatedAt + FallbackDeadline(fallback)) <= now
      ensures result.Ok? && Unresolved(result.value.status) ==>
                Coalesce(result.value.deadlineAt, result.value.updatedAt + FallbackDeadline(fallback)) > now
    {
      if id !in rows {
        return Err(NotFound);
      }
      var r := rows[id];
      var due := Coalesce(r.deadlineAt, r.updatedAt + FallbackDeadline(fallback));
      if (r.status == Submitted || r.status == Verifying) && due <= now {
        rows := rows[id := r.(status := Expired, claimedUntil := None, updatedAt := now)];
      }
      result := Ok(rows[id]);
    }

    /** The row and the reservation of its hash change together or not at all. */
    method SubmitTransaction(publicId: Uuid, payerId: Uuid, hash: string, now: Time, deadline: Time)
      returns (result: Result<Request>)
      requires Valid()
      modifies this`rows, consumed
      ensures Valid()
      ensures result == SubmitFor(Located(old(rows), index, publicId), old(consumed.owners), payerId, hash, now, deadline)
      ensures rows == Stored(old(rows), Kept(result))
      ensures consumed.owners == if result.Ok? && result.value != old(rows)[index[publicId]]
                                 then old(consumed.owners)[hash := RequestKey(index[publicId])] else old(consumed.owners)
    {
      if publicId !in index {
        return Err(NotFound);
      }
      var id := index[publicId];
      var current := ExpirePending(rows[id], now);
      if current.hash == Some(hash) && current.payerId == Some(payerId) && current.status in {Submitted, Verifying, Paid} {
        return Ok(current);
      }
      if current.status != Pending {
        return Err(NotSubmittable);
      }
      var reserved := consumed.Consume(hash, RequestKey(id));
      if !reserved {
        return Err(HashUsed);
      }
      rows := rows[id := current.(status := Submitted, hash := Some(hash), payerId := Some(payerId),
                                  deadlineAt := Some(deadline), lastAttemptAt := None, claimedUntil := None, updatedAt := now)];
      result := Ok(rows[id]);
    }

    method CancelPending(publicId: Uuid, creatorId: Uuid, now: Time) returns (result: Result<Request>)
      requires Valid()
      modifies this`rows
      ensures Valid()
      ensures var r := Located(old(rows), index, publicId);
              && result == (if r.None? then Err(NotFound) else Cancel(r.value, creatorId, now))
              && rows == Stored(old(rows), Kept(result))
    {
      if publicId !in index || rows[index[publicId]].creatorId != creatorId {
        return Err(NotFound);
      }
      var id := index[publicId];
      var current := ExpirePending(rows[id], now);
      match current.status
      case Cancelled | Expired =>
        rows := rows[id := current];
        result := Ok(current);
      case Pending =>
        rows := rows[id := current.(status := Cancelled, cancelledAt := Some(Coalesce(current.cancelledAt, now)),
                                    updatedAt := now)];
        result := Ok(rows[id]);
      case _ => result := Err(NotCancellable);
    }

    /** The only way from expired to paid: an expired row that owns the reservation of its hash. Anything else is left as
        it is. */
    method ConfirmExpiredRecovery(id: Uuid, now: Time) returns (result: Result<Request>)
      requires Valid()
      modifies this`rows
      ensures result == if id in old(rows) then Recover(old(rows)[id], now, Owns(consumed.owners, old(rows)[id]))
                        else Err(NotFound)
      ensures rows == Stored(old(rows), Kept(result)) && Valid() && OthersUnchanged(old(rows), rows, id)
      ensures result.Ok? ==> result.value.status == Paid && result.value.hash == old(rows)[id].hash
      ensures id in old(rows) && rows[id] != old(rows)[id] ==>
                old(rows)[id].status == Expired && Owns(consumed.owners, old(rows)[id]) && result.Ok?
    {
      if id !in rows {
        return Err(NotFound);
      }
      var r := rows[id];
      if r.status == Paid {
        return Ok(r);
      }
      if r.status != Expired || Blank(r.hash) {
        return Err(NotRecoverable);
      }
      if !Owns(consumed.owners, r) {
        return Err(NotReserved);
      }
      rows := rows[id := r.(status := Paid, claimedUntil := None, paidAt := Some(Coalesce(r.paidAt, now)), updatedAt := now)];
      result := Ok(rows[id]);
    }
  }

  // ----- The use case -----

  /** What a batch of reconciliations leaves in the table, publishes and reports. */
  datatype Batch = Batch(rows: Table, published: seq<StatusChanged>, reports: seq<Report>)

  function ReconcileAll(rows: Table, candidates: seq<Request>, policy: Policy, passes: seq<Pass>): Batch
    requires |candidates| == |passes|
  {
    if candidates == [] then Batch(rows, [], [])
    else
      var n := |candidates| - 1;
      var b := ReconcileAll(rows, candidates[..n], policy, passes[..n]);
      var o := Requests.Reconcile(Find(b.rows, candidates[n].id), candidates[n], policy, passes[n]);
      Batch(Stored(b.rows, o.row), b.published + o.events, b.reports + [o.report])
  }

  lemma ReconcileAllNext(rows: Table, candidates: seq<Request>, policy: Policy, passes: seq<Pass>, i: nat)
    requires |candidates| == |passes| && i < |candidates|
    ensures var b := ReconcileAll(rows, candidates[..i], policy, passes[..i]);
            var o := Requests.Reconcile(Find(b.rows, candidates[i].id), candidates[i], policy, passes[i]);
            ReconcileAll(rows, candidates[..i + 1], policy, passes[..i + 1])
            == Batch(Stored(b.rows, o.row), b.published + o.events, b.reports + [o.report])
  {
    assert candidates[..i + 1][..i] == candidates[..i] && passes[..i + 1][..i] == passes[..i];
  }

  /** Reconcile, branch by branch. */
  lemma ReconcileCases(row: Option<Request>, c: Request, policy: Policy, pass: Pass)
    ensures var claimed, o := ClaimFor(row, c, pass.now, policy), Requests.Reconcile(row, c, policy, pass);
            o == if c.hash.None? || !Unresolved(c.status) then Outcome(row, c, Opening(c), [])
                 else if !HasPayer(c) then Act(row, c, c, Persist(Failed, ClassInvalid), pass.now, policy)
                 else if claimed.None? then Outcome(row, c, Opening(c).(category := ClassClaimUnavailable), [])
                 else Act(claimed, c, claimed.value, Decide(pass.answer, Stale(c, pass.now, policy)), pass.later, policy)
  {
  }

  lemma ReconcileKeepsIdentity(row: Option<Request>, c: Request, policy: Policy, pass: Pass)
    ensures var o := Requests.Reconcile(row, c, policy, pass);
            && (o.row.Some? <==> row.Some?)
            && (o.row.Some? ==> o.row.value.id == row.value.id && o.row.value.publicId == row.value.publicId)
  {
  }

  lemma StoredTwice(rows: Table, r: Request, row: Option<Request>)
    requires row.Some? && row.value.id == r.id
    ensures Stored(Stored(rows, Some(r)), row) == Stored(rows, row)
  {
  }

  lemma StoredSame(rows: Table, id: Uuid)
    requires Keyed(rows)
    ensures Stored(rows, Find(rows, id)) == rows
  {
  }

  class RequestUseCase {
    const repo: RequestRepo
    const policy: Policy
    var published: seq<StatusChanged>

    constructor (repo: RequestRepo, policy: Policy)
      ensures this.repo == repo && this.policy == Normalize(policy) && published == []
    {
      this.repo, this.policy, published := repo, Normalize(policy), [];
    }

    method PublishStatus(r: Request)
      modifies this`published
      ensures published == old(published) + Announce(r)
    {
      var kind := PaymentRequestEventType(StatusText(r.status));
      if kind == "" {
        return;
      }
      var ids := [r.creatorId];
      if r.payerId.Some? {
        ids := ids + [r.payerId.value];
      }
      var users := UniqueUserIds(ids);
      assert ids == [r.creatorId] + if r.payerId.Some? then [r.payerId.value] else [];
      var event := StatusChanged(kind, r.publicId, StatusText(r.status), users);
      published := published + [event];
      if r.status == Paid {
        published := published + [event.(kind := WALLET_ACTIVITY_CHANGED)];
      }
    }

    method PersistVerificationState(claimed: Request, status: Status, report: Report, category: Class, now: Time)
      returns (updated: Request, result: Report)
      requires repo.Valid()
      modifies repo`rows, this`published
      ensures repo.Valid()
      ensures var r := Find(old(repo.rows), claimed.id);
              if r.None? || Requests.SetVerificationState(r.value, status, now).Err? then
                && repo.rows == old(repo.rows) && published == old(published)
                && updated == claimed && result == report.(category := ClassStateUpdateError)
              else
                var o := Written(Requests.SetVerificationState(r.value, status, now).value, claimed, report, category);
                && repo.rows == Stored(old(repo.rows), o.row) && published == old(published) + o.events
                && updated == o.returned && result == o.report
    {
      var r := repo.SetVerificationState(claimed.id, status, now);
      if r.Err? {
        return claimed, report.(category := ClassStateUpdateError);
      }
      updated, result := r.value, report.(after := r.value.status, category := category);
      if updated.status != claimed.status {
        PublishStatus(updated);
      }
    }

    method ExpireStale(claimed: Request, report: Report, now: Time) returns (updated: Request, result: Report)
      requires repo.Valid()
      modifies repo`rows, this`published
      ensures repo.Valid()
      ensures var r := Find(old(repo.rows), claimed.id);
              if r.None? then
                && repo.rows == old(repo.rows) && published == old(published)
                && updated == claimed && result == report.(category := ClassStateUpdateError)
              else
                var o := Written(Requests.ExpireUnresolved(r.value, now, policy.deadline), claimed, report, ClassStaleExpired);
                && repo.rows == Stored(old(repo.rows), o.row) && published == old(published) + o.events
                && updated == o.returned && result == o.report
    {
      var r := repo.ExpireUnresolved(claimed.id, now, policy.deadline);
      if r.Err? {
        return claimed, report.(category := ClassStateUpdateError);
      }
      updated, result := r.value, report.(after := r.value.status, category := ClassStaleExpired);
      if updated.status != claimed.status {
        PublishStatus(updated);
      }
    }

    /** One reconciliation, for any candidate, whether or not its row is still there. */
    method ReconcileRequest(candidate: Request, pass: Pass) returns (updated: Request, result: Report)
      requires repo.Valid()
      modifies repo`rows, this`published
      ensures repo.Valid()
      ensures var o := Requests.Reconcile(Find(old(repo.rows), candidate.id), candidate, policy, pass);
              && repo.rows == Stored(old(repo.rows), o.row) && published == old(published) + o.events
              && updated == o.returned && result == o.report
    {
      ghost var row := Find(repo.rows, candidate.id);
      ReconcileCases(row, candidate, policy, pass);
      StoredSame(repo.rows, candidate.id);
      updated, result := candidate, Report(candidate.id, candidate.status, candidate.status, NoClass);
      if candidate.hash.None? || (candidate.status != Submitted && candidate.status != Verifying) {
        return;
      }
      if candidate.payerId.None? || candidate.payerId.value == NIL {
        updated, result := PersistVerificationState(candidate, Failed, result, ClassInvalid, pass.now);
        return;
      }
      var stale := Stale(candidate, pass.now, policy);
      var claimed := repo.ClaimVerification(candidate.id, pass.now, policy.interval, policy.interval, stale);
      if claimed.None? {
        result := result.(category := ClassClaimUnavailable);
        return;
      }
      assert Find(repo.rows, candidate.id) == claimed;
      ReconcileKeepsIdentity(row, candidate, policy, pass);
      StoredTwice(old(repo.rows), claimed.value, Requests.Reconcile(row, candidate, policy, pass).row);
      updated, result := Resolve(candidate, claimed.value, stale, pass.answer, result, pass.later);
    }

    /** Acting on the verifier's answer about a claimed row. */
    method Resolve(candidate: Request, claimed: Request, stale: bool, answer: Answer, report: Report, now: Time)
      returns (updated: Request, result: Report)
      requires repo.Valid() && report == Opening(candidate) && claimed.id == candidate.id
      modifies repo`rows, this`published
      ensures repo.Valid()
      ensures var o := Act(Find(old(repo.rows), candidate.id), candidate, claimed, Decide(answer, stale), now, policy);
              && repo.rows == Stored(old(repo.rows), o.row) && published == old(published) + o.events
              && updated == o.returned && result == o.report
    {
      updated, result := candidate, report;
      match answer
      case IsConfirmed => updated, result := PersistVerificationState(claimed, Paid, report, ClassPaid, now);
      case IsInvalid => updated, result := PersistVerificationState(claimed, Failed, report, ClassInvalid, now);
      case IsNotFinal =>
        if stale {
          updated, result := ExpireStale(claimed, report, now);
        } else {
          updated, result := PersistVerificationState(claimed, Verifying, report, ClassNotFinal, now);
        }
      case IsNotFound =>
        if stale {
          updated, result := ExpireStale(claimed, report, now);
        } else {
          result := report.(category := ClassNotFound);
        }
      case _ =>
        if stale {
          updated, result := ExpireStale(claimed, report, now);
        } else {
          result := report.(category := ClassTransient);
        }
    }

    /** One pass over a batch; an individual failure does not stop it. */
    method Reconcile(candidates: seq<Request>, passes: seq<Pass>) returns (reports: seq<Report>)
      requires repo.Valid() && |candidates| == |passes|
      modifies repo`rows, this`published
      ensures repo.Valid()
      ensures Batch(repo.rows, published, reports)
              == var b := ReconcileAll(old(repo.rows), candidates, policy, passes);
                 b.(published := old(published) + b.published)
    {
      reports := [];
      ghost var rows, told := repo.rows, published;
      for i := 0 to |candidates|
        invariant repo.Valid()
        invariant var b := ReconcileAll(rows, candidates[..i], policy, passes[..i]);
                  repo.rows == b.rows && published == told + b.published && reports == b.reports
      {
        ghost var b := ReconcileAll(rows, candidates[..i], policy, passes[..i]);
        ghost var o := Requests.Reconcile(Find(b.rows, candidates[i].id), candidates[i], policy, passes[i]);
        var _, result := ReconcileRequest(candidates[i], passes[i]);
        reports := reports + [result];
        ReconcileAllNext(rows, candidates, policy, passes, i);
        Associates(told, b.published, o.events);
      }
      assert candidates[..|candidates|] == candidates && passes[..|passes|] == passes;
    }

    /** Only the hash of an authenticated payer is stored, in its normal form; it is published and verified once at once. */
    method SubmitTransaction(publicId: Uuid, payerId: Uuid, raw: string, now: Time, pass: Pass)
      returns (result: Result<Request>, ghost s: Result<Request>)
      requires repo.Valid()
      modifies repo`rows, repo.consumed, this`published
      ensures repo.Valid()
      ensures s == SubmitText(Located(old(repo.rows), repo.index, publicId), old(repo.consumed.owners), payerId, raw, now,
                              now + policy.deadline)
      ensures s.Err? ==>
                && result == s && repo.rows == old(repo.rows) && published == old(published)
                && repo.consumed.owners == old(repo.consumed.owners)
      ensures s.Ok? ==>
                var o := Requests.Reconcile(Some(s.value), s.value, policy, pass);
                && result == Ok(o.returned) && repo.rows == Stored(old(repo.rows), o.row)
                && published == old(published) + (if s.value.status == Submitted then Announce(s.value) else []) + o.events
      ensures s.Ok? ==>
                var id := repo.index[publicId];
                repo.consumed.owners == if s.value == old(repo.rows)[id] then old(repo.consumed.owners)
                                        else old(repo.consumed.owners)[NormalHash(raw).value := RequestKey(id)]
    {
      var hash := NormalHash(raw);
      if hash.None? {
        return Err(InvalidHash), Err(InvalidHash);
      }
      result, s := SubmitHash(publicId, payerId, hash.value, now, pass);
    }

    method SubmitHash(publicId: Uuid, payerId: Uuid, hash: string, now: Time, pass: Pass)
      returns (result: Result<Request>, ghost s: Result<Request>)
      requires repo.Valid()
      modifies repo`rows, repo.consumed, this`published
      ensures repo.Valid()
      ensures s == SubmitFor(Located(old(repo.rows), repo.index, publicId), old(repo.consumed.owners), payerId, hash, now,
                             now + policy.deadline)
      ensures s.Err? ==>
                && result == s && repo.rows == old(repo.rows) && published == old(published)
                && repo.consumed.owners == old(repo.consumed.owners)
      ensures s.Ok? ==>
                var o := Requests.Reconcile(Some(s.value), s.value, policy, pass);
                && result == Ok(o.returned) && repo.rows == Stored(old(repo.rows), o.row)
                && published == old(published) + (if s.value.status == Submitted then Announce(s.value) else []) + o.events
      ensures s.Ok? ==>
                repo.consumed.owners == if s.value == old(repo.rows)[repo.index[publicId]] then old(repo.consumed.owners)
                                        else old(repo.consumed.owners)[hash := RequestKey(repo.index[publicId])]
    {
      var submitted := repo.SubmitTransaction(publicId, payerId, hash, now, now + policy.deadline);
      s := submitted;
      assert s == SubmitFor(Located(old(repo.rows), repo.index, publicId), old(repo.consumed.owners), payerId, hash, now,
                            now + policy.deadline);
      if submitted.Err? {
        return submitted, s;
      }
      var updated := VerifySubmitted(submitted.value, pass);
      ghost var o := Requests.Reconcile(Some(s.value), s.value, policy, pass);
      StoredTwice(old(repo.rows), s.value, o.row);
      result := Ok(updated);
    }

    /** What follows an accepted submission. */
    method VerifySubmitted(r: Request, pass: Pass) returns (updated: Request)
      requires repo.Valid() && Find(repo.rows, r.id) == Some(r)
      modifies repo`rows, this`published
      ensures repo.Valid()
      ensures var o := Requests.Reconcile(Some(r), r, policy, pass);
              && o.row.Some? && o.row.value.id == r.id
              && updated == o.returned && repo.rows == Stored(old(repo.rows), o.row)
              && published == old(published) + (if r.status == Submitted then Announce(r) else []) + o.events
    {
      ReconcileKeepsIdentity(Some(r), r, policy, pass);
      if r.status == Submitted {
        PublishStatus(r);
      }
      assert published == old(published) + if r.status == Submitted then Announce(r) else [];
      var u, _ := ReconcileRequest(r, pass);
      updated := u;
    }

    /** The creator cancels a pending request; a request that is due expires first, whoever asks. */
    method Cancel(publicId: Uuid, creatorId: Uuid, now: Time) returns (result: Result<Request>)
      requires repo.Valid()
      modifies repo`rows, this`published
      ensures repo.Valid()
      ensures var r := Located(old(repo.rows), repo.index, publicId);
              if r.None? then result == Err(NotFound) && repo.rows == old(repo.rows) && published == old(published)
              else
                var before := ExpirePending(r.value, now);
                && result == Requests.Cancel(before, creatorId, now)
                && repo.rows == Stored(old(repo.rows), Some(if result.Ok? then result.value else before))
                && published == old(published)
                                + if result.Ok? && result.value.status != before.status then Announce(result.value) else []
    {
      var before := repo.GetByPublicId(publicId, now);
      if before.Err? {
        return before;
      }
      if before.value.creatorId != creatorId {
        return Err(NotFound);
      }
      result := repo.CancelPending(publicId, creatorId, now);
      if result.Ok? { StoredTwice(old(repo.rows), before.value, Some(result.value)); }
      if result.Ok? && before.value.status != result.value.status {
        PublishStatus(result.value);
      }
    }

    /** Asks again about an expired request with a hash, for its creator or payer; only "confirmed" changes anything. */
    method RecoverExpired(publicId: Uuid, actor: Uuid, answer: Answer, now: Time, later: Time) returns (result: Result<Request>)
      requires repo.Valid()
      modifies repo`rows, this`published
      ensures repo.Valid()
      ensures var r := Located(old(repo.rows), repo.index, publicId);
              if r.None? then result == Err(NotFound) && repo.rows == old(repo.rows) && published == old(published)
              else
                var read := ExpirePending(r.value, now);
                if read.creatorId != actor && read.payerId != Some(actor) then
                  result == Err(NotFound) && repo.rows == Stored(old(repo.rows), Some(read)) && published == old(published)
                else if read.status != Expired || Blank(read.hash) || answer != IsConfirmed then
                  && repo.rows == Stored(old(repo.rows), Some(read)) && published == old(published)
                  && result == if read.status == Paid || (read.status == Expired && !Blank(read.hash)) then Ok(read)
                               else Err(NotRecoverable)
                else
                  && result == Recover(read, later, Owns(repo.consumed.owners, read))
                  && repo.rows == Stored(old(repo.rows), Some(if result.Ok? then result.value else read))
                  && published == old(published) + if result.Ok? then Announce(result.value) else []
    {
      var read := repo.GetByPublicId(publicId, now);
      if read.Err? {
        return read;
      }
      var request := read.value;
      if request.creatorId != actor && (request.payerId.None? || request.payerId.value != actor) {
        return Err(NotFound);
      }
      var before := request.status;
      if before == Paid {
        return Ok(request);
      }
      if before != Expired || Blank(request.hash) {
        return Err(NotRecoverable);
      }
      if answer != IsConfirmed {
        return Ok(request);
      }
      result := FinishRecovery(request, later);
      if result.Ok? { StoredTwice(old(repo.rows), request, Some(result.value)); }
    }

    /** What follows the verifier's confirmation of an expired request. */
    method FinishRecovery(request: Request, now: Time) returns (result: Result<Request>)
      requires repo.Valid() && Find(repo.rows, request.id) == Some(request) && request.status == Expired
      modifies repo`rows, this`published
      ensures repo.Valid()
      ensures result == Recover(request, now, Owns(repo.consumed.owners, request))
      ensures result.Ok? ==> result.value.id == request.id
      ensures repo.rows == if result.Ok? then Stored(old(repo.rows), Some(result.value)) else old(repo.rows)
      ensures published == old(published) + if result.Ok? then Announce(result.value) else []
    {
      result := repo.ConfirmExpiredRecovery(request.id, now);
      if result.Ok? && result.value.status != request.status {
        PublishStatus(result.value);
      }
    }
  }

  // ----- Batches -----

  ghost predicate DistinctIds(rs: seq<Request>) { forall i, j :: 0 <= i < j < |rs| ==> rs[i].id != rs[j].id }

  lemma StoredOne(rows: Table, row: Option<Request>, id: Uuid, other: Uuid)
    requires Keyed(rows) && (row.Some? <==> id in rows) && (row.Some? ==> row.value.id == id)
    ensures var now := Stored(rows, row);
            && Keyed(now) && now.Keys == rows.Keys && Find(now, id) == row
            && (other != id ==> Find(now, other) == Find(rows, other))
  {
  }

  /** What a batch has done to the row of candidate i. */
  ghost predicate Alone(b: Batch, rows: Table, c: Request, policy: Policy, pass: Pass, i: nat) {
    var o := Requests.Reconcile(Find(rows, c.id), c, policy, pass);
    i < |b.reports| && b.reports[i] == o.report && Find(b.rows, c.id) == o.row
  }

  /** What the candidates publish one after another, each on its own. */
  function EventsInTurn(rows: Table, candidates: seq<Request>, policy: Policy, passes: seq<Pass>): seq<StatusChanged>
    requires |candidates| == |passes|
  {
    if candidates == [] then []
    else
      var n := |candidates| - 1;
      EventsInTurn(rows, candidates[..n], policy, passes[..n])
      + Requests.Reconcile(Find(rows, candidates[n].id), candidates[n], policy, passes[n]).events
  }

  /** A batch over different rows treats each row as if it were alone, and publishes in the order of the batch. */
  lemma {:induction false} BatchIsPointwise(rows: Table, candidates: seq<Request>, policy: Policy, passes: seq<Pass>)
    requires |candidates| == |passes| && DistinctIds(candidates) && Keyed(rows)
    ensures var b := ReconcileAll(rows, candidates, policy, passes);
            && Keyed(b.rows) && b.rows.Keys == rows.Keys && |b.reports| == |candidates|
            && b.published == EventsInTurn(rows, candidates, policy, passes)
            && forall i :: 0 <= i < |candidates| ==> Alone(b, rows, candidates[i], policy, passes[i], i)
  {
    if candidates != [] {
      var n := |candidates| - 1;
      var c, front := candidates[n], ReconcileAll(rows, candidates[..n], policy, passes[..n]);
      BatchIsPointwise(rows, candidates[..n], policy, passes[..n]);
      BatchSparesOthers(rows, candidates[..n], policy, passes[..n], c.id);
      var o := Requests.Reconcile(Find(rows, c.id), c, policy, passes[n]);
      assert Find(front.rows, c.id) == Find(rows, c.id);
      ReconcileKeepsIdentity(Find(rows, c.id), c, policy, passes[n]);
      StoredOne(front.rows, o.row, c.id, c.id);
      forall i | 0 <= i < n
        ensures Alone(ReconcileAll(rows, candidates, policy, passes), rows, candidates[i], policy, passes[i], i)
      {
        assert Alone(front, rows, candidates[..n][i], policy, passes[..n][i], i);
        StoredOne(front.rows, o.row, c.id, candidates[i].id);
      }
    }
  }

  /** And it touches no other row. */
  lemma {:induction false} BatchSparesOthers(rows: Table, candidates: seq<Request>, policy: Policy, passes: seq<Pass>, id: Uuid)
    requires |candidates| == |passes| && Keyed(rows)
    requires forall i :: 0 <= i < |candidates| ==> candidates[i].id != id
    ensures var b := ReconcileAll(rows, candidates, policy, passes);
            Keyed(b.rows) && b.rows.Keys == rows.Keys && Find(b.rows, id) == Find(rows, id)
  {
    if candidates != [] {
      var n := |candidates| - 1;
      var c, front := candidates[n], ReconcileAll(rows, candidates[..n], policy, passes[..n]);
      BatchSparesOthers(rows, candidates[..n], policy, passes[..n], id);
      ReconcileKeepsIdentity(Find(front.rows, c.id), c, policy, passes[n]);
      StoredOne(front.rows, Requests.Reconcile(Find(front.rows, c.id), c, policy, passes[n]).row, c.id, id);
    }
  }
}
