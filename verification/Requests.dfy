/** Payment requests: the row operations of the repository, and the use case that drives them. */
module Requests {
  import opened Payment
  import opened RealtimeEvents
  import opened Rooms
  import opened Text

  datatype Request = Request(
    id: Uuid, publicId: Uuid, creatorId: Uuid, recipient: string, amountLunas: int, note: Option<string>, status: Status,
    expiresAt: Time, cancelledAt: Option<Time>, paidAt: Option<Time>, payerId: Option<Uuid>, hash: Option<string>,
    deadlineAt: Option<Time>, lastAttemptAt: Option<Time>, claimedUntil: Option<Time>, createdAt: Time, updatedAt: Time)

  function NewRequest(id: Uuid, publicId: Uuid, creatorId: Uuid, recipient: string, amountLunas: int, note: Option<string>,
                      expiresAt: Time, now: Time): Request
  {
    Request(id, publicId, creatorId, recipient, amountLunas, note, Pending, expiresAt, None, None, None, None, None, None,
            None, now, now)
  }

  // ----- One row -----

  /** A pending row past its expiry is expired by every read and write that touches it. */
  function ExpirePending(r: Request, now: Time): Request {
    if r.status == Pending && r.expiresAt <= now then r.(status := Expired, updatedAt := now) else r
  }

  /** The expiry of a rejected submission is rolled back with it. */
  function Submit(r: Request, payerId: Uuid, hash: string, now: Time, deadline: Time, used: bool): Result<Request> {
    var current := ExpirePending(r, now);
    if current.hash == Some(hash) && current.payerId == Some(payerId) && current.status in {Submitted, Verifying, Paid}
    then Ok(current)
    else if current.status != Pending then Err(NotSubmittable)
    else if used then Err(HashUsed)
    else Ok(current.(status := Submitted, hash := Some(hash), payerId := Some(payerId), deadlineAt := Some(deadline),
                     lastAttemptAt := None, claimedUntil := None, updatedAt := now))
  }

  function Cancel(r: Request, creatorId: Uuid, now: Time): Result<Request> {
    if r.creatorId != creatorId then Err(NotFound)
    else
      var current := ExpirePending(r, now);
      match current.status
      case Cancelled | Expired => Ok(current)
      case Pending =>
        Ok(current.(status := Cancelled, cancelledAt := Some(Coalesce(current.cancelledAt, now)), updatedAt := now))
      case _ => Err(NotCancellable)
  }

  /** Deleting an account cancels the requests its user created and nobody has paid yet. */
  function Withdraw(r: Request, creatorId: Uuid, now: Time): Request {
    if r.creatorId == creatorId && r.status == Pending
    then r.(status := Cancelled, cancelledAt := Some(Coalesce(r.cancelledAt, now)), updatedAt := now) else r
  }

  /** ClaimVerification: at most one attempt at a time, and not before the retry interval unless forced. */
  function Claim(r: Request, now: Time, retry: Time, duration: Time, force: bool): Option<Request> {
    var threshold := now - if retry < 0 then 0 else retry;
    if !Unresolved(r.status) then None
    else if r.claimedUntil.Some? && r.claimedUntil.value > now then None
    else if !force && r.lastAttemptAt.Some? && r.lastAttemptAt.value > threshold then None
    else Some(r.(lastAttemptAt := Some(now), claimedUntil := Some(now + ClaimDuration(duration))))
  }

  function SetVerificationState(r: Request, status: Status, now: Time): Result<Request> {
    if status !in {Verifying, Paid, Failed} then Err(InvalidState)
    else if Unresolved(r.status) then
      Ok(r.(status := status, claimedUntil := None,
            paidAt := if status == Paid then Some(Coalesce(r.paidAt, now)) else r.paidAt, updatedAt := now))
    else if r.status == status then Ok(r)
    else if r.status in {Paid, Failed, Expired, Cancelled} then Err(StateTerminal)
    else Err(StateChanged)
  }

  /** Expires an unresolved row once its deadline has come; any other row is returned as it is. */
  function ExpireUnresolved(r: Request, now: Time, fallback: Time): Request {
    if Unresolved(r.status) && Coalesce(r.deadlineAt, r.updatedAt + FallbackDeadline(fallback)) <= now
    then r.(status := Expired, claimedUntil := None, updatedAt := now) else r
  }

  function Recover(r: Request, now: Time, reserved: bool): Result<Request> {
    if r.status == Paid then Ok(r)
    else if r.status != Expired || Blank(r.hash) then Err(NotRecoverable)
    else if !reserved then Err(NotReserved)
    else Ok(r.(status := Paid, claimedUntil := None, paidAt := Some(Coalesce(r.paidAt, now)), updatedAt := now))
  }

  /** The rows ListReconciliationCandidates selects from. */
  predicate Candidate(r: Request, now: Time, policy: Policy) {
    && Unresolved(r.status)
    && NoneOrPast(r.claimedUntil, now)
    && (|| Coalesce(r.deadlineAt, r.updatedAt + FallbackDeadline(policy.deadline)) <= now
        || NoneOrPast(r.lastAttemptAt, now - if policy.interval < 0 then 0 else policy.interval))
  }

  // ----- Reconciliation -----

  /** Whether the row has a payer to hold the sender against. */
  predicate HasPayer(r: Request) { r.payerId.Some? && r.payerId.value != NIL }

  function TransferOf(r: Request): Option<Transfer> {
    if r.hash.None? || r.payerId.None? then None
    else Some(Transfer(r.hash.value, r.recipient, r.amountLunas, r.payerId.value))
  }

  /** The recovery asks for the actor's transfer when no payer is stored. */
  function RecoveryTransfer(r: Request, actor: Uuid): Option<Transfer> {
    if r.hash.None? then None
    else Some(Transfer(r.hash.value, r.recipient, r.amountLunas, if r.payerId.Some? then r.payerId.value else actor))
  }

  function Stale(r: Request, now: Time, policy: Policy): bool {
    !(now < if r.deadlineAt.Some? then r.deadlineAt.value else r.updatedAt + policy.deadline)
  }

  function Decide(answer: Answer, stale: bool): Decision {
    if answer == IsConfirmed then Persist(Paid, ClassPaid)
    else if answer == IsInvalid then Persist(Failed, ClassInvalid)
    else if stale then Expire
    else if answer == IsNotFinal then Persist(Verifying, ClassNotFinal)
    else if answer == IsNotFound then Leave(ClassNotFound)
    else Leave(ClassTransient)
  }

  /** publishStatus: to the creator and the payer, with wallet activity besides a payment. */
  function Announce(r: Request): seq<StatusChanged> {
    var kind := PaymentRequestEventType(StatusText(r.status));
    var users := Unique([r.creatorId] + if r.payerId.Some? then [r.payerId.value] else []);
    var event := StatusChanged(kind, r.publicId, StatusText(r.status), users);
    if kind == "" then []
    else [event] + if r.status == Paid then [event.(kind := WALLET_ACTIVITY_CHANGED)] else []
  }

  /** What one call of the reconciler leaves in the table, returns, reports and publishes. */
  datatype Outcome = Outcome(row: Option<Request>, returned: Request, report: Report, events: seq<StatusChanged>)

  function Opening(r: Request): Report { Report(r.id, r.status, r.status, NoClass) }

  /** What a write returned: published when the status is not the one the claim saw. */
  function Written(updated: Request, claimed: Request, report: Report, category: Class): Outcome {
    Outcome(Some(updated), updated, report.(after := updated.status, category := category),
            if updated.status != claimed.status then Announce(updated) else [])
  }

  /** Acting on an answer: `row` is the row at that time, if it is still there. */
  function Act(row: Option<Request>, candidate: Request, claimed: Request, decision: Decision, now: Time, policy: Policy)
    : Outcome
  {
    var report := Opening(candidate);
    match decision
    case Leave(category) => Outcome(row, candidate, report.(category := category), [])
    case Persist(status, category) =>
      if row.None? || SetVerificationState(row.value, status, now).Err?
      then Outcome(row, claimed, report.(category := ClassStateUpdateError), [])
      else Written(SetVerificationState(row.value, status, now).value, claimed, report, category)
    case Expire =>
      if row.None? then Outcome(row, claimed, report.(category := ClassStateUpdateError), [])
      else Written(ExpireUnresolved(row.value, now, policy.deadline), claimed, report, ClassStaleExpired)
  }

  function ClaimFor(row: Option<Request>, candidate: Request, now: Time, policy: Policy): Option<Request> {
    if row.None? then None else Claim(row.value, now, policy.interval, policy.interval, Stale(candidate, now, policy))
  }

  /** reconcileRequest with nothing in between. A row without a payer fails at once; there is one clock reading then. */
  function Reconcile(row: Option<Request>, candidate: Request, policy: Policy, pass: Pass): Outcome {
    if candidate.hash.None? || !Unresolved(candidate.status) then Outcome(row, candidate, Opening(candidate), [])
    else if !HasPayer(candidate) then Act(row, candidate, candidate, Persist(Failed, ClassInvalid), pass.now, policy)
    else
      var claimed := ClaimFor(row, candidate, pass.now, policy);
      if claimed.None? then Outcome(row, candidate, Opening(candidate).(category := ClassClaimUnavailable), [])
      else Act(claimed, candidate, claimed.value, Decide(pass.answer, Stale(candidate, pass.now, policy)), pass.later, policy)
  }

  /** The batch query and the claim agree: what can be claimed is selected, and what is selected can be claimed unless
      the row has no stored deadline and the policy's deadline is not in whole seconds. */
  lemma CandidatesAreClaimable(r: Request, now: Time, policy: Policy)
    requires policy.interval > 0 && policy.deadline > 0
    ensures ClaimFor(Some(r), r, now, policy).Some? ==> Candidate(r, now, policy)
    ensures r.deadlineAt.Some? || policy.deadline % SECOND == 0 ==>
              (ClaimFor(Some(r), r, now, policy).Some? <==> Candidate(r, now, policy))
  {
    if policy.deadline % SECOND == 0 {
      assert WholeSeconds(policy.deadline) == policy.deadline;
    }
  }
}
