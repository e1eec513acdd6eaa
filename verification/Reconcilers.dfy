/** The two reconcilers side by side: for rows with a hash and a payer they are the same protocol up to the name of the
    settled status. */
module Reconcilers {
  import opened Payment
  import P = Purchases
  import R = Requests
  import opened Text

  function AsPaid(s: Status): Status { if s == Confirmed then Paid else s }

  function AsPaidClass(c: Class): Class { if c == ClassConfirmed then ClassPaid else c }

  /** A purchase and a request at the same point of the protocol. */
  predicate Matched(p: P.Purchase, r: R.Request) {
    && p.status != Paid && r.status == AsPaid(p.status)
    && p.hash == r.hash && p.deadlineAt == r.deadlineAt && p.lastAttemptAt == r.lastAttemptAt
    && p.claimedUntil == r.claimedUntil && p.updatedAt == r.updatedAt && p.confirmedAt == r.paidAt
  }

  predicate MatchedRows(p: Option<P.Purchase>, r: Option<R.Request>) {
    (p.None? && r.None?) || (p.Some? && r.Some? && Matched(p.value, r.value))
  }

  /** Same row afterwards, same report, and the same decision to publish the returned row's status. */
  predicate SameOutcome(x: P.Outcome, y: R.Outcome) {
    && MatchedRows(x.row, y.row)
    && Matched(x.returned, y.returned)
    && AsPaid(x.report.before) == y.report.before && AsPaid(x.report.after) == y.report.after
    && AsPaidClass(x.report.category) == y.report.category
    && (x.events == [] <==> y.events == [])
    && (x.events == [] || x.events == P.Announce(x.returned))
    && (y.events == [] || y.events == R.Announce(y.returned))
  }

  function OneDecision(d: Decision): Decision {
    match d
    case Persist(status, category) => Persist(AsPaid(status), AsPaidClass(category))
    case _ => d
  }

  lemma DecideAlike(answer: Answer, stale: bool)
    ensures R.Decide(answer, stale) == OneDecision(P.Decide(answer, stale))
  {
  }

  lemma ClaimAlike(p: P.Purchase, r: R.Request, now: Time, retry: Time, duration: Time, force: bool)
    requires Matched(p, r)
    ensures MatchedRows(P.Claim(p, now, retry, duration, force), R.Claim(r, now, retry, duration, force))
  {
  }

  lemma WriteAlike(p: P.Purchase, r: R.Request, status: Status, now: Time, fallback: Time)
    requires Matched(p, r) && status != Paid
    ensures var x, y := P.SetVerificationState(p, status, now), R.SetVerificationState(r, AsPaid(status), now);
            (x.Err? && y.Err?) || (x.Ok? && y.Ok? && Matched(x.value, y.value))
    ensures Matched(P.ExpireUnresolved(p, now, fallback), R.ExpireUnresolved(r, now, fallback))
  {
  }

  lemma WrittenAlike(p: P.Purchase, r: R.Request, claimedP: P.Purchase, claimedR: R.Request, x: Report, y: Report,
                     category: Class)
    requires Matched(p, r) && Matched(claimedP, claimedR) && AsPaid(x.before) == y.before
    ensures SameOutcome(P.Written(p, claimedP, x, category), R.Written(r, claimedR, y, AsPaidClass(category)))
  {
  }

  /** Acting on the same answer, whatever the rows have become since they were claimed. */
  lemma {:induction false} ActAlike(p: Option<P.Purchase>, r: Option<R.Request>, cp: P.Purchase, cr: R.Request,
                                    claimedP: P.Purchase, claimedR: R.Request, answer: Answer, stale: bool, now: Time, policy: Policy)
    requires MatchedRows(p, r) && Matched(cp, cr) && Matched(claimedP, claimedR)
    ensures SameOutcome(P.Act(p, cp, claimedP, P.Decide(answer, stale), now, policy),
                        R.Act(r, cr, claimedR, R.Decide(answer, stale), now, policy))
  {
    DecideAlike(answer, stale);
    if p.Some? {
      match P.Decide(answer, stale)
      case Persist(status, category) =>
        WriteAlike(p.value, r.value, status, now, policy.deadline);
        var x := P.SetVerificationState(p.value, status, now);
        if x.Ok? {
          WrittenAlike(x.value, R.SetVerificationState(r.value, AsPaid(status), now).value, claimedP, claimedR,
                       P.Opening(cp), R.Opening(cr), category);
        }
      case Expire =>
        WriteAlike(p.value, r.value, Failed, now, policy.deadline);
        WrittenAlike(P.ExpireUnresolved(p.value, now, policy.deadline), R.ExpireUnresolved(r.value, now, policy.deadline),
                     claimedP, claimedR, P.Opening(cp), R.Opening(cr), ClassStaleExpired);
      case Leave(category) =>
    }
  }

  lemma ClaimedIsActed(p: Option<P.Purchase>, r: Option<R.Request>, cp: P.Purchase, cr: R.Request, policy: Policy,
                       pass: Pass)
    requires Unresolved(cp.status) && Unresolved(cr.status) && cr.hash.Some? && R.HasPayer(cr)
    requires P.ClaimFor(p, cp, pass.now, policy).Some? && R.ClaimFor(r, cr, pass.now, policy).Some?
    ensures var claimed := P.ClaimFor(p, cp, pass.now, policy);
            P.Reconcile(p, cp, policy, pass)
            == P.Act(claimed, cp, claimed.value, P.Decide(pass.answer, P.Stale(cp, pass.now, policy)), pass.later, policy)
    ensures var claimed := R.ClaimFor(r, cr, pass.now, policy);
            R.Reconcile(r, cr, policy, pass)
            == R.Act(claimed, cr, claimed.value, R.Decide(pass.answer, R.Stale(cr, pass.now, policy)), pass.later, policy)
  {
  }

  /** Same claim, same row afterwards, same report and same decision to publish, for every candidate with a hash and a
      payer, whatever state its row is in, and for every policy, clock and answer. */
  lemma {:induction false} ReconcileAlike(p: Option<P.Purchase>, r: Option<R.Request>, cp: P.Purchase, cr: R.Request,
                                          policy: Policy, pass: Pass)
    requires MatchedRows(p, r) && Matched(cp, cr) && cp.hash.Some? && R.HasPayer(cr)
    ensures MatchedRows(P.ClaimFor(p, cp, pass.now, policy), R.ClaimFor(r, cr, pass.now, policy))
    ensures SameOutcome(P.Reconcile(p, cp, policy, pass), R.Reconcile(r, cr, policy, pass))
  {
    var stale := P.Stale(cp, pass.now, policy);
    assert stale == R.Stale(cr, pass.now, policy);
    if p.Some? { ClaimAlike(p.value, r.value, pass.now, policy.interval, policy.interval, stale); }
    var claimedP, claimedR := P.ClaimFor(p, cp, pass.now, policy), R.ClaimFor(r, cr, pass.now, policy);
    if !Unresolved(cp.status) || claimedP.None? {
    } else {
      ClaimedIsActed(p, r, cp, cr, policy, pass);
      ActAlike(claimedP, claimedR, cp, cr, claimedP.value, claimedR.value, pass.answer, stale, pass.later, policy);
    }
  }

  // ----- Runs -----

  function PurchaseAfter(p: P.Purchase, policy: Policy, passes: seq<Pass>): P.Purchase {
    if passes == [] then p
    else
      var before, pass := PurchaseAfter(p, policy, passes[..|passes| - 1]), passes[|passes| - 1];
      PurchaseNext(before, policy, pass)
  }

  function PurchaseNext(p: P.Purchase, policy: Policy, pass: Pass): P.Purchase {
    P.Reconcile(Some(p), p, policy, pass).row.value
  }

  function RequestNext(r: R.Request, policy: Policy, pass: Pass): R.Request {
    R.Reconcile(Some(r), r, policy, pass).row.value
  }

  function RequestAfter(r: R.Request, policy: Policy, passes: seq<Pass>): R.Request {
    if passes == [] then r
    else RequestNext(RequestAfter(r, policy, passes[..|passes| - 1]), policy, passes[|passes| - 1])
  }

  lemma PassKeepsParties(p: P.Purchase, r: R.Request, policy: Policy, pass: Pass)
    ensures PurchaseNext(p, policy, pass).hash == p.hash
    ensures RequestNext(r, policy, pass).payerId == r.payerId
  {
  }

  /** Over any number of passes the two rows stay at the same point of the protocol. */
  lemma {:induction false} RunsAlike(p: P.Purchase, r: R.Request, policy: Policy, passes: seq<Pass>)
    requires Matched(p, r) && p.hash.Some? && R.HasPayer(r)
    ensures var q, s := PurchaseAfter(p, policy, passes), RequestAfter(r, policy, passes);
            Matched(q, s) && q.hash.Some? && R.HasPayer(s)
  {
    if passes != [] {
      var front, pass := passes[..|passes| - 1], passes[|passes| - 1];
      RunsAlike(p, r, policy, front);
      var q, s := PurchaseAfter(p, policy, front), RequestAfter(r, policy, front);
      ReconcileAlike(Some(q), Some(s), q, s, policy, pass);
      PassKeepsParties(q, s, policy, pass);
    }
  }

  // ----- Where they differ -----

  ghost predicate Alike(p: P.Purchase, r: R.Request, policy: Policy) {
    forall pass ::
      SameOutcome(P.Reconcile(Some(p), p, policy, pass), R.Reconcile(Some(r), r, policy, pass))
  }

  /** Unresolved rows are treated alike exactly when they have a hash and a payer: without a hash the purchase is still
      claimed and asked about while the request is left alone, and without a payer the request fails unasked. */
  lemma AlikeIff(p: P.Purchase, r: R.Request, policy: Policy)
    requires Matched(p, r) && Unresolved(p.status)
    ensures Alike(p, r, policy) <==> p.hash.Some? && R.HasPayer(r)
  {
    if p.hash.Some? && R.HasPayer(r) {
      forall pass
        ensures SameOutcome(P.Reconcile(Some(p), p, policy, pass), R.Reconcile(Some(r), r, policy, pass))
      {
        ReconcileAlike(Some(p), Some(r), p, r, policy, pass);
      }
    } else {
      var retry := if policy.interval < 0 then 0 else policy.interval;
      var free, due := Coalesce(p.claimedUntil, 0), Coalesce(p.lastAttemptAt, 0) + retry;
      var now := if free < due then due else free;
      var pass := Pass(now, IsConfirmed, now);
      assert P.Reconcile(Some(p), p, policy, pass).row.value.status == Confirmed;
      assert R.Reconcile(Some(r), r, policy, pass).row.value.status != Paid;
      assert !SameOutcome(P.Reconcile(Some(p), p, policy, pass), R.Reconcile(Some(r), r, policy, pass));
    }
  }
}
