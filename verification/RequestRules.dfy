/** When each operation on a payment request takes effect, which refusal it gives otherwise, and what it leaves alone. */
module RequestRules {
  import opened Payment
  import opened Requests
  import opened Rooms
  import opened Text

  /** What no operation changes. */
  predicate SameRequest(r: Request, q: Request) {
    && q.id == r.id && q.publicId == r.publicId && q.creatorId == r.creatorId && q.recipient == r.recipient
    && q.amountLunas == r.amountLunas && q.note == r.note && q.expiresAt == r.expiresAt && q.createdAt == r.createdAt
  }

  /** What only a submission changes. */
  predicate SamePayment(r: Request, q: Request) {
    SameRequest(r, q) && q.payerId == r.payerId && q.hash == r.hash && q.deadlineAt == r.deadlineAt
  }

  /** What only a submission and a claim change. */
  predicate SameAttempt(r: Request, q: Request) { SamePayment(r, q) && q.lastAttemptAt == r.lastAttemptAt }

  /** A row whose status changed at this time, with nothing else changed but what is not compared here: the claim, and the
      instants of a payment and a cancellation. */
  predicate Turned(r: Request, q: Request, status: Status, now: Time) {
    SameAttempt(r, q) && q.status == status && q.updatedAt == now
  }

  lemma NewIsPending(id: Uuid, publicId: Uuid, creatorId: Uuid, recipient: string, amountLunas: int, note: Option<string>,
                     expiresAt: Time, now: Time)
    ensures var r := NewRequest(id, publicId, creatorId, recipient, amountLunas, note, expiresAt, now);
            && r.id == id && r.publicId == publicId && r.creatorId == creatorId && r.recipient == recipient
            && r.amountLunas == amountLunas && r.note == note && r.status == Pending && r.expiresAt == expiresAt
            && r.createdAt == r.updatedAt == now && r.cancelledAt.None? && r.paidAt.None? && r.payerId.None? && r.hash.None?
            && r.deadlineAt.None? && r.lastAttemptAt.None? && r.claimedUntil.None?
  {
  }

  predicate Late(r: Request, now: Time) { r.status == Pending && !(now < r.expiresAt) }

  /** A pending request expires when its time is over, and only then. */
  lemma LateIff(r: Request, now: Time)
    ensures var q := ExpirePending(r, now);
            && (q.status != r.status <==> Late(r, now))
            && (if q.status == r.status then q == r
                else Turned(r, q, Expired, now) && q.claimedUntil == r.claimedUntil && q.paidAt == r.paidAt
                     && q.cancelledAt == r.cancelledAt)
  {
  }

  /** The payer's own hash again, while it is being paid or once it has been. */
  predicate Repeats(r: Request, payerId: Uuid, hash: string) {
    && r.hash == Some(hash) && r.payerId == Some(payerId)
    && (r.status == Submitted || r.status == Verifying || r.status == Paid)
  }

  /** A submission is accepted as a repetition by its payer, which changes nothing, or for a pending request that is not
      late, under a hash that is not used; whoever submits becomes the payer. */
  lemma SubmitIff(r: Request, payerId: Uuid, hash: string, now: Time, deadline: Time, used: bool)
    ensures var s, again := Submit(r, payerId, hash, now, deadline, used), Repeats(r, payerId, hash);
            var payable := r.status == Pending && now < r.expiresAt;
            && (s.Ok? <==> again || (payable && !used))
            && (s == Err(NotSubmittable) <==> !again && !payable)
            && (s == Err(HashUsed) <==> payable && used)
            && (again ==> s == Ok(r))
            && (s.Ok? && !again ==> Accepted(r, s.value, payerId, hash, now, deadline))
  {
  }

  predicate Accepted(r: Request, q: Request, payerId: Uuid, hash: string, now: Time, deadline: Time) {
    && SameRequest(r, q) && q.status == Submitted && q.payerId == Some(payerId) && q.hash == Some(hash)
    && q.deadlineAt == Some(deadline) && q.lastAttemptAt.None? && q.claimedUntil.None? && q.updatedAt == now
    && q.paidAt == r.paidAt && q.cancelledAt == r.cancelledAt
  }

  /** Only the creator cancels, and only a pending request that is not late; one that is late expires instead, cancelled
      and expired ones are returned as they are, and others are refused. */
  lemma CancelIff(r: Request, creatorId: Uuid, now: Time)
    ensures var c, own := Cancel(r, creatorId, now), r.creatorId == creatorId;
            && (c == Err(NotFound) <==> !own)
            && (c == Err(NotCancellable) <==> own && r.status !in {Pending, Cancelled, Expired})
            && (c.Ok? <==> own && r.status in {Pending, Cancelled, Expired})
            && (c.Ok? && r.status != Pending ==> c.value == r)
            && (c.Ok? && Late(r, now) ==> c.value == ExpirePending(r, now))
            && (c.Ok? && r.status == Pending && !Late(r, now) ==> CancelledAt(r, c.value, now))
  {
  }

  predicate CancelledAt(r: Request, q: Request, now: Time) {
    && Turned(r, q, Cancelled, now) && q.claimedUntil == r.claimedUntil && q.paidAt == r.paidAt
    && q.cancelledAt == if r.cancelledAt.Some? then r.cancelledAt else Some(now)
  }

  /** Deleting an account cancels the pending requests its user created, late or not, and no others. */
  lemma WithdrawIff(r: Request, user: Uuid, now: Time)
    ensures var q := Withdraw(r, user, now);
            if r.status == Pending && user == r.creatorId then CancelledAt(r, q, now) else q == r
  {
  }

  /** A claim is given for an unresolved row that nobody holds and that has rested, unless it is forced; it lasts for the
      whole seconds of its duration, and for half a minute at least. */
  lemma ClaimIff(r: Request, now: Time, retry: Time, duration: Time, force: bool)
    ensures var c := Claim(r, now, retry, duration, force);
            && (c.Some? <==>
                  && Unresolved(r.status)
                  && !(r.claimedUntil.Some? && now < r.claimedUntil.value)
                  && (force || !(r.lastAttemptAt.Some? && now < r.lastAttemptAt.value + (if retry > 0 then retry else 0))))
            && (c.Some? ==>
                  && SamePayment(r, c.value) && c.value.status == r.status && c.value.updatedAt == r.updatedAt
                  && c.value.paidAt == r.paidAt && c.value.cancelledAt == r.cancelledAt
                  && c.value.lastAttemptAt == Some(now) && c.value.claimedUntil.Some?
                  && var length := c.value.claimedUntil.value - now;
                     length % SECOND == 0 && 30 * SECOND <= length
                     && (if duration >= 30 * SECOND then duration - SECOND < length <= duration else length == 30 * SECOND))
  {
  }

  /** An outcome is written to an unresolved row; a row that has it already is returned as it is; the others are refused,
      final and cancelled rows as such. */
  lemma OutcomeIff(r: Request, status: Status, now: Time)
    ensures var s := SetVerificationState(r, status, now);
            var known := status == Verifying || status == Paid || status == Failed;
            && (s.Ok? <==> known && (Unresolved(r.status) || r.status == status))
            && (s == Err(InvalidState) <==> !known)
            && (s == Err(StateChanged) <==> known && (r.status == Pending || r.status == Confirmed))
            && (s == Err(StateTerminal) <==> known && r.status != status && r.status in {Paid, Failed, Expired, Cancelled})
            && (s.Ok? && !Unresolved(r.status) ==> s.value == r)
            && (s.Ok? && Unresolved(r.status) ==>
                  && Turned(r, s.value, status, now) && s.value.claimedUntil.None? && s.value.cancelledAt == r.cancelledAt
                  && s.value.paidAt == if status == Paid && r.paidAt.None? then Some(now) else r.paidAt)
  {
  }

  /** An unresolved row expires from its deadline on: the stored one, or the fallback after its last change. */
  lemma ExpiryIff(r: Request, now: Time, fallback: Time)
    ensures var q := ExpireUnresolved(r, now, fallback);
            var due := if r.deadlineAt.Some? then r.deadlineAt.value else r.updatedAt + FallbackDeadline(fallback);
            && (q.status != r.status <==> Unresolved(r.status) && due <= now)
            && (if q.status == r.status then q == r
                else Turned(r, q, Expired, now) && q.claimedUntil.None? && q.paidAt == r.paidAt && q.cancelledAt == r.cancelledAt)
  {
  }

  /** A recovery marks an expired row with a hash that is reserved for it as paid; a paid row is returned as it is; each
      refusal has its own condition. */
  lemma RecoverIff(r: Request, now: Time, reserved: bool)
    ensures var c := Recover(r, now, reserved);
            var recoverable := r.status == Expired && r.hash.Some? && !AllSpace(r.hash.value);
            && (c.Ok? <==> r.status == Paid || (recoverable && reserved))
            && (c == Err(NotRecoverable) <==> r.status != Paid && !recoverable)
            && (c == Err(NotReserved) <==> recoverable && !reserved)
            && (r.status == Paid ==> c == Ok(r))
            && (c.Ok? && r.status == Expired ==>
                  && Turned(r, c.value, Paid, now) && c.value.claimedUntil.None? && c.value.cancelledAt == r.cancelledAt
                  && c.value.paidAt == if r.paidAt.Some? then r.paidAt else Some(now))
  {
    BlankIff(r.hash);
  }

  /** A row is stale from its deadline on, which without a stored one is the policy's, not rounded. */
  lemma StaleIff(r: Request, now: Time, policy: Policy)
    ensures Stale(r, now, policy) <==>
              (r.deadlineAt.Some? && r.deadlineAt.value <= now) || (r.deadlineAt.None? && r.updatedAt + policy.deadline <= now)
  {
  }

  /** A report names the candidate and the status it had, and the status it has been given; without a write that is the same
      one. */
  lemma ReportIs(row: Option<Request>, c: Request, policy: Policy, pass: Pass)
    ensures var o := Reconcile(row, c, policy, pass);
            && o.report.id == c.id && o.report.before == c.status
            && (o.report.after == o.returned.status || (o.report.category == ClassStateUpdateError && o.report.after == c.status))
            && (o.events != [] ==> o.row == Some(o.returned) && o.report.after == o.returned.status)
  {
  }

  /** What the categories of a report mean; a row without a payer is reported as invalid without asking. */
  lemma CategoryIs(row: Option<Request>, c: Request, policy: Policy, pass: Pass)
    ensures var o := Reconcile(row, c, policy, pass);
            var asked := c.hash.Some? && c.payerId.Some? && c.payerId.value != NIL;
            && (o.report.category == NoClass <==> c.hash.None? || !Unresolved(c.status))
            && (o.report.category == ClassClaimUnavailable <==>
                  asked && Unresolved(c.status) && ClaimFor(row, c, pass.now, policy).None?)
            && (o.report.category == ClassPaid ==> asked && pass.answer == IsConfirmed && o.returned.status == Paid)
            && (o.report.category == ClassInvalid ==> (!asked || pass.answer == IsInvalid) && o.returned.status == Failed)
            && (o.report.category == ClassNotFinal ==> pass.answer == IsNotFinal && o.returned.status == Verifying)
            && (o.report.category == ClassNotFound ==> pass.answer == IsNotFound && o.returned == c)
            && (o.report.category == ClassTransient ==> pass.answer in {RpcError, Unknown} && o.returned == c)
            && (o.report.category == ClassStaleExpired ==>
                  Stale(c, pass.now, policy) && pass.answer !in {IsConfirmed, IsInvalid})
  {
  }
}
