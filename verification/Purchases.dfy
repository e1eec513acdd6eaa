/** Event purchases: the row operations of the repository, and the use case that drives them. */
module Purchases {
  import opened Payment
  import opened RealtimeEvents
  import opened Rooms
  import opened Text

  datatype Purchase = Purchase(
    id: Uuid, eventId: Uuid, userId: Uuid, amountLunas: int, status: Status, holdExpiresAt: Option<Time>,
    deadlineAt: Option<Time>, lastAttemptAt: Option<Time>, claimedUntil: Option<Time>, hash: Option<string>,
    createdAt: Time, updatedAt: Time, confirmedAt: Option<Time>)

  function NewPurchase(id: Uuid, eventId: Uuid, userId: Uuid, amountLunas: int, hold: Option<Time>, now: Time): Purchase {
    Purchase(id, eventId, userId, amountLunas, Pending, hold, None, None, None, None, now, now, None)
  }

  // ----- One row -----

  /** A pending row whose capacity hold has run out expires when its event is next touched. */
  function ExpireHold(p: Purchase, now: Time): Purchase {
    if p.status == Pending && p.holdExpiresAt.Some? && p.holdExpiresAt.value <= now
    then p.(status := Expired, updatedAt := now) else p
  }

  /** `used` tells whether the hash is reserved already. */
  function Submit(p: Purchase, userId: Uuid, hash: string, now: Time, deadline: Time, eventCancelled: bool, used: bool)
    : Result<Purchase>
  {
    if p.userId != userId then Err(NotFound)
    else if p.hash == Some(hash) && p.status in {Submitted, Verifying, Confirmed} then Ok(p)
    else if eventCancelled then Err(EventCancelled)
    else if p.status != Pending then Err(NotSubmittable)
    else if used then Err(HashUsed)
    else Ok(p.(status := Submitted, hash := Some(hash), holdExpiresAt := None, deadlineAt := Some(deadline),
               lastAttemptAt := None, claimedUntil := None, updatedAt := now))
  }

  /** ClaimVerification: at most one attempt at a time, and not before the retry interval unless forced. */
  function Claim(p: Purchase, now: Time, retry: Time, duration: Time, force: bool): Option<Purchase> {
    if Unresolved(p.status) && NoneOrPast(p.claimedUntil, now)
       && (force || NoneOrPast(p.lastAttemptAt, now - if retry < 0 then 0 else retry))
    then Some(p.(lastAttemptAt := Some(now), claimedUntil := Some(now + ClaimDuration(duration))))
    else None
  }

  function SetVerificationState(p: Purchase, status: Status, now: Time): Result<Purchase> {
    if status !in {Verifying, Confirmed, Failed} then Err(InvalidState)
    else if Unresolved(p.status) then
      Ok(p.(status := status, holdExpiresAt := None, claimedUntil := None,
            confirmedAt := if status == Confirmed then Some(Coalesce(p.confirmedAt, now)) else p.confirmedAt,
            updatedAt := now))
    else if p.status == status then Ok(p)
    else if p.status in {Failed, Expired, Cancelled, Confirmed} then Err(StateTerminal)
    else Err(StateChanged)
  }

  /** Expires an unresolved row once its deadline has come; any other row is returned as it is. */
  function ExpireUnresolved(p: Purchase, now: Time, fallback: Time): Purchase {
    if Unresolved(p.status) && Coalesce(p.deadlineAt, p.updatedAt + FallbackDeadline(fallback)) <= now
    then p.(status := Expired, holdExpiresAt := None, claimedUntil := None, updatedAt := now) else p
  }

  /** ConfirmExpiredRecovery: `reserved` tells whether the row's hash is reserved for this row, `rival` whether its user
      has another submitted, verifying or confirmed purchase for the event. */
  function Recover(p: Purchase, now: Time, reserved: bool, rival: bool): Result<Purchase> {
    if p.status == Confirmed then Ok(p)
    else if p.status != Expired || Blank(p.hash) then Err(NotRecoverable)
    else if !reserved then Err(NotReserved)
    else if rival then Err(StateConflict)
    else Ok(p.(status := Confirmed, holdExpiresAt := None, claimedUntil := None,
               confirmedAt := Some(Coalesce(p.confirmedAt, now)), updatedAt := now))
  }

  /** A successful recovery cancels the user's other pending purchase for the event. */
  function Release(p: Purchase, recovered: Purchase, now: Time): Purchase {
    if p.eventId == recovered.eventId && p.userId == recovered.userId && p.id != recovered.id && p.status == Pending
    then p.(status := Cancelled, updatedAt := now) else p
  }

  /** The rows ListReconciliationCandidates selects from. */
  predicate Candidate(p: Purchase, now: Time, policy: Policy) {
    && Unresolved(p.status)
    && NoneOrPast(p.claimedUntil, now)
    && (|| Coalesce(p.deadlineAt, p.updatedAt + FallbackDeadline(policy.deadline)) <= now
        || NoneOrPast(p.lastAttemptAt, now - if policy.interval < 0 then 0 else policy.interval))
  }

  // ----- Reconciliation -----

  function TransferOf(p: Purchase, merchant: string): Option<Transfer> {
    if p.hash.None? then None else Some(Transfer(p.hash.value, merchant, p.amountLunas, p.userId))
  }

  function Stale(p: Purchase, now: Time, policy: Policy): bool {
    now >= Coalesce(p.deadlineAt, p.updatedAt + policy.deadline)
  }

  function Decide(answer: Answer, stale: bool): Decision {
    match answer
    case IsConfirmed => Persist(Confirmed, ClassConfirmed)
    case IsInvalid => Persist(Failed, ClassInvalid)
    case IsNotFinal => if stale then Expire else Persist(Verifying, ClassNotFinal)
    case IsNotFound => if stale then Expire else Leave(ClassNotFound)
    case _ => if stale then Expire else Leave(ClassTransient)
  }

  /** publishStatus: nothing for a status without a type, and wallet activity besides a confirmation. */
  function Announce(p: Purchase): seq<StatusChanged> {
    var kind := EventPurchaseEventType(StatusText(p.status));
    var event := StatusChanged(kind, p.id, StatusText(p.status), Unique([p.userId]));
    if kind == "" then []
    else [event] + if p.status == Confirmed then [event.(kind := WALLET_ACTIVITY_CHANGED)] else []
  }

  /** What one call of the reconciler leaves in the table, returns, reports and publishes. */
  datatype Outcome = Outcome(row: Option<Purchase>, returned: Purchase, report: Report, events: seq<StatusChanged>)

  function Opening(p: Purchase): Report { Report(p.id, p.status, p.status, NoClass) }

  /** What a write returned: published when the status is not the one the claim saw. */
  function Written(updated: Purchase, claimed: Purchase, report: Report, category: Class): Outcome {
    Outcome(Some(updated), updated, report.(after := updated.status, category := category),
            if updated.status != claimed.status then Announce(updated) else [])
  }

  /** Acting on an answer: `row` is the row at that time, if it is still there. */
  function Act(row: Option<Purchase>, candidate: Purchase, claimed: Purchase, decision: Decision, now: Time, policy: Policy)
    : Outcome
  {
    var report := Opening(candidate);
    match decision
    case Leave(category) => Outcome(row, candidate, report.(category := category), [])
    case Persist(status, category) =>
      if row.None? || SetVerificationState(row.value, status, now).Err?
      then Outcome(row, claimed, report.(category := ClassStateUpdateError), [])
      else Written(SetVerificationState(row.value, status, now).value, claimed, report, category)
    case Expire =>
      if row.None? then Outcome(row, claimed, report.(category := ClassStateUpdateError), [])
      else Written(ExpireUnresolved(row.value, now, policy.deadline), claimed, report, ClassStaleExpired)
  }

  function ClaimFor(row: Option<Purchase>, candidate: Purchase, now: Time, policy: Policy): Option<Purchase> {
    if row.None? then None else Claim(row.value, now, policy.interval, policy.interval, Stale(candidate, now, policy))
  }

  /** reconcilePurchase with nothing in between. */
  function Reconcile(row: Option<Purchase>, candidate: Purchase, policy: Policy, pass: Pass): Outcome {
    if !Unresolved(candidate.status) then Outcome(row, candidate, Opening(candidate), [])
    else
      var claimed := ClaimFor(row, candidate, pass.now, policy);
      if claimed.None? then Outcome(row, candidate, Opening(candidate).(category := ClassClaimUnavailable), [])
      else Act(claimed, candidate, claimed.value, Decide(pass.answer, Stale(candidate, pass.now, policy)), pass.later, policy)
  }

  /** The batch query and the claim agree: what can be claimed is selected, and what is selected can be claimed unless
      the row has no stored deadline and the policy's deadline is not in whole seconds. */
  lemma CandidatesAreClaimable(p: Purchase, now: Time, policy: Policy)
    requires policy.interval > 0 && policy.deadline > 0
    ensures ClaimFor(Some(p), p, now, policy).Some? ==> Candidate(p, now, policy)
    ensures p.deadlineAt.Some? || policy.deadline % SECOND == 0 ==>
              (ClaimFor(Some(p), p, now, policy).Some? <==> Candidate(p, now, policy))
  {
    if policy.deadline % SECOND == 0 {
      assert WholeSeconds(policy.deadline) == policy.deadline;
    }
  }
}
