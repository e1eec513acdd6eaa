/** When each operation on a purchase takes effect, which refusal it gives otherwise, and what it leaves alone. */
module PurchaseRules {
  import opened Payment
  import opened Purchases
  import opened Rooms
  import opened Text

  /** What no operation changes. */
  predicate SameSale(p: Purchase, q: Purchase) {
    && q.id == p.id && q.eventId == p.eventId && q.userId == p.userId && q.amountLunas == p.amountLunas
    && q.createdAt == p.createdAt
  }

  /** What only a submission changes. */
  predicate SamePayment(p: Purchase, q: Purchase) { SameSale(p, q) && q.hash == p.hash && q.deadlineAt == p.deadlineAt }

  /** What only a submission and a claim change. */
  predicate SameAttempt(p: Purchase, q: Purchase) { SamePayment(p, q) && q.lastAttemptAt == p.lastAttemptAt }

  /** A row whose status changed at this time: nobody holds a claim on it or a place for it any more. */
  predicate Turned(p: Purchase, q: Purchase, status: Status, now: Time) {
    && SameAttempt(p, q) && q.status == status && q.updatedAt == now
    && q.claimedUntil.None? && q.holdExpiresAt.None?
  }

  lemma NewIsPending(id: Uuid, eventId: Uuid, userId: Uuid, amountLunas: int, hold: Option<Time>, now: Time)
    ensures var p := NewPurchase(id, eventId, userId, amountLunas, hold, now);
            && p.id == id && p.eventId == eventId && p.userId == userId && p.amountLunas == amountLunas
            && p.status == Pending && p.holdExpiresAt == hold && p.createdAt == p.updatedAt == now
            && p.hash.None? && p.deadlineAt.None? && p.lastAttemptAt.None? && p.claimedUntil.None? && p.confirmedAt.None?
  {
  }

  /** A hold is given up at its end, and only for a pending row. */
  lemma HoldIff(p: Purchase, now: Time)
    ensures var q := ExpireHold(p, now);
            && (q != p ==> SameAttempt(p, q) && q.status == Expired && q.updatedAt == now && q.confirmedAt == p.confirmedAt
                           && q.claimedUntil == p.claimedUntil && q.holdExpiresAt == p.holdExpiresAt)
            && (q.status != p.status <==> p.status == Pending && !(p.holdExpiresAt.None? || now < p.holdExpiresAt.value))
  {
  }

  /** The buyer's own hash again, while it is being paid or once it has been. */
  predicate Repeats(p: Purchase, hash: string) {
    p.hash == Some(hash) && (p.status == Submitted || p.status == Verifying || p.status == Confirmed)
  }

  /** A submission is accepted for its buyer, either as a repetition, which changes nothing, or for a pending purchase of an
      event that is not cancelled, under a hash that is not used; each refusal has its own condition. */
  lemma SubmitIff(p: Purchase, userId: Uuid, hash: string, now: Time, deadline: Time, cancelled: bool, used: bool)
    ensures var s, own := Submit(p, userId, hash, now, deadline, cancelled, used), p.userId == userId;
            var anew := own && !Repeats(p, hash);
            && (s == Err(NotFound) <==> !own)
            && (s == Err(EventCancelled) <==> anew && cancelled)
            && (s == Err(NotSubmittable) <==> anew && !cancelled && p.status != Pending)
            && (s == Err(HashUsed) <==> anew && !cancelled && p.status == Pending && used)
            && (s.Ok? <==> own && (Repeats(p, hash) || (!cancelled && p.status == Pending && !used)))
            && (own && Repeats(p, hash) ==> s == Ok(p))
            && (s.Ok? && anew ==> Accepted(p, s.value, hash, now, deadline))
  {
  }

  predicate Accepted(p: Purchase, q: Purchase, hash: string, now: Time, deadline: Time) {
    && SameSale(p, q) && q.status == Submitted && q.hash == Some(hash) && q.deadlineAt == Some(deadline)
    && q.lastAttemptAt.None? && q.claimedUntil.None? && q.holdExpiresAt.None? && q.updatedAt == now
    && q.confirmedAt == p.confirmedAt
  }

  /** A claim is given for an unresolved row that nobody holds and that has rested, unless it is forced; it lasts for the
      whole seconds of its duration, and for half a minute at least. */
  lemma ClaimIff(p: Purchase, now: Time, retry: Time, duration: Time, force: bool)
    ensures var c := Claim(p, now, retry, duration, force);
            && (c.Some? <==>
                  && Unresolved(p.status)
                  && !(p.claimedUntil.Some? && now < p.claimedUntil.value)
                  && (force || !(p.lastAttemptAt.Some? && now < p.lastAttemptAt.value + (if retry > 0 then retry else 0))))
            && (c.Some? ==>
                  && SamePayment(p, c.value) && c.value.status == p.status && c.value.updatedAt == p.updatedAt
                  && c.value.confirmedAt == p.confirmedAt && c.value.holdExpiresAt == p.holdExpiresAt
                  && c.value.lastAttemptAt == Some(now) && c.value.claimedUntil.Some?
                  && var length := c.value.claimedUntil.value - now;
                     length % SECOND == 0 && 30 * SECOND <= length
                     && (if duration >= 30 * SECOND then duration - SECOND < length <= duration else length == 30 * SECOND))
  {
  }

  /** An outcome is written to an unresolved row; a row that has it already is returned as it is; the others are refused,
      final and cancelled rows as such. */
  lemma OutcomeIff(p: Purchase, status: Status, now: Time)
    ensures var s := SetVerificationState(p, status, now);
            var known := status == Verifying || status == Confirmed || status == Failed;
            && (s.Ok? <==> known && (Unresolved(p.status) || p.status == status))
            && (s == Err(InvalidState) <==> !known)
            && (s == Err(StateChanged) <==> known && (p.status == Pending || p.status == Paid))
            && (s == Err(StateTerminal) <==>
                  known && p.status != status && p.status in {Confirmed, Failed, Expired, Cancelled})
            && (s.Ok? && !Unresolved(p.status) ==> s.value == p)
            && (s.Ok? && Unresolved(p.status) ==>
                  && Turned(p, s.value, status, now)
                  && s.value.confirmedAt == if status == Confirmed && p.confirmedAt.None? then Some(now) else p.confirmedAt)
  {
  }

  /** An unresolved row expires from its deadline on: the stored one, or the fallback after its last change. */
  lemma ExpiryIff(p: Purchase, now: Time, fallback: Time)
    ensures var q := ExpireUnresolved(p, now, fallback);
            var due := if p.deadlineAt.Some? then p.deadlineAt.value else p.updatedAt + FallbackDeadline(fallback);
            && (q.status != p.status <==> Unresolved(p.status) && due <= now)
            && (if q.status == p.status then q == p else Turned(p, q, Expired, now) && q.confirmedAt == p.confirmedAt)
  {
  }

  /** A recovery confirms an expired row with a hash that is reserved for it and without a rival; a confirmed row is
      returned as it is; each refusal has its own condition. */
  lemma RecoverIff(p: Purchase, now: Time, reserved: bool, rival: bool)
    ensures var r := Recover(p, now, reserved, rival);
            var recoverable := p.status == Expired && p.hash.Some? && !AllSpace(p.hash.value);
            && (r.Ok? <==> p.status == Confirmed || (recoverable && reserved && !rival))
            && (r == Err(NotRecoverable) <==> p.status != Confirmed && !recoverable)
            && (r == Err(NotReserved) <==> recoverable && !reserved)
            && (r == Err(StateConflict) <==> recoverable && reserved && rival)
            && (p.status == Confirmed ==> r == Ok(p))
            && (r.Ok? && p.status == Expired ==>
                  && Turned(p, r.value, Confirmed, now)
                  && r.value.confirmedAt == if p.confirmedAt.Some? then p.confirmedAt else Some(now))
  {
    BlankIff(p.hash);
  }

  /** It releases pending purchases of the same user for the same event, and no others. */
  lemma ReleaseIff(p: Purchase, recovered: Purchase, now: Time)
    ensures var q := Release(p, recovered, now);
            && (q.status != p.status <==> p.status == Pending && p.id != recovered.id && p.userId == recovered.userId
                                          && p.eventId == recovered.eventId)
            && (if q.status == p.status then q == p
                else SameAttempt(p, q) && q.status == Cancelled && q.updatedAt == now && q.claimedUntil == p.claimedUntil
                     && q.holdExpiresAt == p.holdExpiresAt && q.confirmedAt == p.confirmedAt)
  {
  }

  /** A row is stale from its deadline on, which without a stored one is the policy's, not rounded. */
  lemma StaleIff(p: Purchase, now: Time, policy: Policy)
    ensures Stale(p, now, policy) <==>
              (p.deadlineAt.Some? && p.deadlineAt.value <= now) || (p.deadlineAt.None? && p.updatedAt + policy.deadline <= now)
  {
  }

  /** A report names the candidate and the status it had, and the status it has been given; without a write that is the same
      one. */
  lemma ReportIs(row: Option<Purchase>, c: Purchase, policy: Policy, pass: Pass)
    ensures var o := Reconcile(row, c, policy, pass);
            && o.report.id == c.id && o.report.before == c.status
            && (o.report.after == o.returned.status || (o.report.category == ClassStateUpdateError && o.report.after == c.status))
            && (o.events != [] ==> o.row == Some(o.returned) && o.report.after == o.returned.status)
  {
  }

  /** What the categories of a report mean. */
  lemma CategoryIs(row: Option<Purchase>, c: Purchase, policy: Policy, pass: Pass)
    ensures var o := Reconcile(row, c, policy, pass);
            && (o.report.category == NoClass <==> !Unresolved(c.status))
            && (o.report.category == ClassClaimUnavailable <==>
                  Unresolved(c.status) && ClaimFor(row, c, pass.now, policy).None?)
            && (o.report.category == ClassConfirmed ==> pass.answer == IsConfirmed && o.returned.status == Confirmed)
            && (o.report.category == ClassInvalid ==> pass.answer == IsInvalid && o.returned.status == Failed)
            && (o.report.category == ClassNotFinal ==> pass.answer == IsNotFinal && o.returned.status == Verifying)
            && (o.report.category == ClassNotFound ==> pass.answer == IsNotFound && o.returned == c)
            && (o.report.category == ClassTransient ==> pass.answer in {RpcError, Unknown} && o.returned == c)
            && (o.report.category == ClassStaleExpired ==>
                  Stale(c, pass.now, policy) && pass.answer !in {IsConfirmed, IsInvalid})
  {
  }
}
