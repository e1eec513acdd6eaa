/** How long a submitted payment can stay unresolved, whatever the verifier answers. */
module Deadline {
  import opened Payment
  import P = Purchases
  import R = Requests
  import opened Reconcilers
  import opened Rooms
  import opened Text

  /** Each pass writes no earlier than it claims. */
  ghost predicate OnTime(passes: seq<Pass>) { forall i :: 0 <= i < |passes| ==> passes[i].now <= passes[i].later }

  /** Passes that claim at least `gap` apart. */
  ghost predicate Spaced(passes: seq<Pass>, gap: Time) {
    forall i :: 0 < i < |passes| ==> passes[i - 1].now + gap <= passes[i].now
  }

  predicate Final(answer: Answer) { answer == IsConfirmed || answer == IsInvalid }

  /** When a row counts as stale: at its stored deadline, or one deadline after its last change. */
  function Due(p: P.Purchase, policy: Policy): Time { Coalesce(p.deadlineAt, p.updatedAt + policy.deadline) }

  predicate Claims(p: P.Purchase, policy: Policy, pass: Pass) { P.ClaimFor(Some(p), p, pass.now, policy).Some? }

  /** A pass that gets the row and either hears the final word or finds the row stale. */
  predicate Resolves(p: P.Purchase, policy: Policy, pass: Pass) {
    Claims(p, policy, pass) && (Final(pass.answer) || pass.now >= Due(p, policy))
  }

  /** One pass over any unresolved row: it is resolved, or refused and unchanged, or changed only in its claim and, by a
      "not final" answer, in its last change. */
  lemma OnePass(p: P.Purchase, policy: Policy, pass: Pass)
    requires Unresolved(p.status) && policy.deadline > 0 && pass.now <= pass.later
    ensures var q := PurchaseNext(p, policy, pass);
            if Resolves(p, policy, pass) then Resolved(q.status)
            else
              && Unresolved(q.status) && q.deadlineAt == p.deadlineAt
              && (!Claims(p, policy, pass) ==> q == p)
              && (Claims(p, policy, pass) ==>
                    && q.lastAttemptAt == Some(pass.now)
                    && q.updatedAt == (if pass.answer == IsNotFinal then pass.later else p.updatedAt)
                    && q.claimedUntil == if pass.answer == IsNotFinal then None
                                         else Some(pass.now + ClaimDuration(policy.interval)))
  {
  }

  lemma ResolvedStays(p: P.Purchase, policy: Policy, pass: Pass)
    requires Resolved(p.status)
    ensures PurchaseNext(p, policy, pass) == p && !Claims(p, policy, pass)
  {
  }

  // ----- When a row is resolved -----

  /** The row that pass i meets. */
  function Met(p: P.Purchase, policy: Policy, passes: seq<Pass>, i: nat): P.Purchase
    requires i <= |passes|
  {
    PurchaseAfter(p, policy, passes[..i])
  }

  ghost predicate SomeResolves(p: P.Purchase, policy: Policy, passes: seq<Pass>) {
    exists i :: 0 <= i < |passes| && Resolves(Met(p, policy, passes, i), policy, passes[i])
  }

  lemma SomeSoFar(p: P.Purchase, policy: Policy, passes: seq<Pass>)
    requires passes != []
    ensures var n := |passes| - 1;
            SomeResolves(p, policy, passes)
            <==> SomeResolves(p, policy, passes[..n]) || Resolves(Met(p, policy, passes, n), policy, passes[n])
  {
    var n, front := |passes| - 1, passes[..|passes| - 1];
    assert forall i :: 0 <= i <= n ==> front[..i] == passes[..i];
    if SomeResolves(p, policy, front) {
      var i :| 0 <= i < n && Resolves(Met(p, policy, front, i), policy, front[i]);
      assert Resolves(Met(p, policy, passes, i), policy, passes[i]);
    }
    if SomeResolves(p, policy, passes) {
      var i :| 0 <= i < |passes| && Resolves(Met(p, policy, passes, i), policy, passes[i]);
      if i < n { assert Resolves(Met(p, policy, front, i), policy, front[i]); }
    }
  }

  /** For every unresolved row, with a stored deadline or without, and whatever times passes come at: the row is resolved
      exactly when some pass claims it and either hears the final word or finds it stale. */
  lemma {:induction false} ResolvedIff(p: P.Purchase, policy: Policy, passes: seq<Pass>)
    requires Unresolved(p.status) && policy.deadline > 0 && OnTime(passes)
    ensures var q := PurchaseAfter(p, policy, passes);
            && (Resolved(q.status) <==> SomeResolves(p, policy, passes))
            && (!Resolved(q.status) ==> Unresolved(q.status) && q.deadlineAt == p.deadlineAt)
  {
    if passes != [] {
      var n := |passes| - 1;
      var q := PurchaseAfter(p, policy, passes[..n]);
      ResolvedIff(p, policy, passes[..n]);
      SomeSoFar(p, policy, passes);
      if Resolved(q.status) { ResolvedStays(q, policy, passes[n]); } else { OnePass(q, policy, passes[n]); }
    }
  }

  /** Pass i gets the row, and hears the final word or comes no earlier than `due`. */
  predicate Decides(p: P.Purchase, policy: Policy, passes: seq<Pass>, i: nat, due: Time)
    requires i < |passes|
  {
    Claims(Met(p, policy, passes, i), policy, passes[i]) && (Final(passes[i].answer) || passes[i].now >= due)
  }

  lemma DecidesIsResolves(p: P.Purchase, policy: Policy, passes: seq<Pass>, i: nat, due: Time)
    requires i < |passes|
    requires Claims(Met(p, policy, passes, i), policy, passes[i]) ==> due == Due(Met(p, policy, passes, i), policy)
    ensures Decides(p, policy, passes, i, due) <==> Resolves(Met(p, policy, passes, i), policy, passes[i])
  {
  }

  lemma ClaimsUnresolved(p: P.Purchase, policy: Policy, pass: Pass)
    requires Claims(p, policy, pass)
    ensures Unresolved(p.status) && !Resolved(p.status)
  {
  }

  lemma StoredDue(p: P.Purchase, policy: Policy, passes: seq<Pass>, i: nat, d: Time)
    requires Unresolved(p.status) && policy.deadline > 0 && OnTime(passes) && p.deadlineAt == Some(d) && i < |passes|
    ensures Decides(p, policy, passes, i, d) <==> Resolves(Met(p, policy, passes, i), policy, passes[i])
  {
    if Claims(Met(p, policy, passes, i), policy, passes[i]) {
      ClaimsUnresolved(Met(p, policy, passes, i), policy, passes[i]);
      ResolvedIff(p, policy, passes[..i]);
    }
    DecidesIsResolves(p, policy, passes, i, d);
  }

  ghost predicate SomeDecidesBy(p: P.Purchase, policy: Policy, passes: seq<Pass>, d: Time) {
    exists i :: 0 <= i < |passes| && Decides(p, policy, passes, i, d)
  }

  /** With a stored deadline, staleness is a matter of the clock alone: the row is resolved exactly when some pass that
      claims it hears the final word or comes at or after the deadline. It is never expired earlier. */
  lemma StoredResolvedIff(p: P.Purchase, policy: Policy, passes: seq<Pass>, d: Time)
    requires Unresolved(p.status) && policy.deadline > 0 && OnTime(passes) && p.deadlineAt == Some(d)
    ensures Resolved(PurchaseAfter(p, policy, passes).status) <==> SomeDecidesBy(p, policy, passes, d)
  {
    ResolvedIff(p, policy, passes);
    if SomeResolves(p, policy, passes) {
      var i :| 0 <= i < |passes| && Resolves(Met(p, policy, passes, i), policy, passes[i]);
      StoredDue(p, policy, passes, i, d);
    }
    if SomeDecidesBy(p, policy, passes, d) {
      var i :| 0 <= i < |passes| && Decides(p, policy, passes, i, d);
      StoredDue(p, policy, passes, i, d);
    }
  }

  predicate DecidesUnrenewed(p: P.Purchase, policy: Policy, passes: seq<Pass>, i: nat)
    requires i < |passes|
  {
    Decides(p, policy, passes, i, LastChange(p, policy, passes[..i]) + policy.deadline)
  }

  lemma LegacyDue(p: P.Purchase, policy: Policy, passes: seq<Pass>, i: nat)
    requires Unresolved(p.status) && policy.deadline > 0 && OnTime(passes) && p.deadlineAt.None? && i < |passes|
    ensures DecidesUnrenewed(p, policy, passes, i) <==> Resolves(Met(p, policy, passes, i), policy, passes[i])
  {
    if Claims(Met(p, policy, passes, i), policy, passes[i]) {
      ClaimsUnresolved(Met(p, policy, passes, i), policy, passes[i]);
      ResolvedIff(p, policy, passes[..i]);
      LastChangeIs(p, policy, passes[..i]);
    }
    DecidesIsResolves(p, policy, passes, i, LastChange(p, policy, passes[..i]) + policy.deadline);
  }

  ghost predicate SomeDecidesUnrenewed(p: P.Purchase, policy: Policy, passes: seq<Pass>) {
    exists i :: 0 <= i < |passes| && DecidesUnrenewed(p, policy, passes, i)
  }

  /** Without one, a row is stale one deadline after its last change, and the last change before pass i is the write of the
      latest pass that claimed the row and heard "not final", or the row's own. */
  lemma LegacyResolvedIff(p: P.Purchase, policy: Policy, passes: seq<Pass>)
    requires Unresolved(p.status) && policy.deadline > 0 && OnTime(passes) && p.deadlineAt.None?
    ensures Resolved(PurchaseAfter(p, policy, passes).status) <==> SomeDecidesUnrenewed(p, policy, passes)
  {
    ResolvedIff(p, policy, passes);
    if SomeResolves(p, policy, passes) {
      var i :| 0 <= i < |passes| && Resolves(Met(p, policy, passes, i), policy, passes[i]);
      LegacyDue(p, policy, passes, i);
    }
    if SomeDecidesUnrenewed(p, policy, passes) {
      var i :| 0 <= i < |passes| && DecidesUnrenewed(p, policy, passes, i);
      LegacyDue(p, policy, passes, i);
    }
  }

  function LastChange(p: P.Purchase, policy: Policy, passes: seq<Pass>): Time {
    if passes == [] then p.updatedAt
    else
      var n := |passes| - 1;
      if passes[n].answer == IsNotFinal && Claims(PurchaseAfter(p, policy, passes[..n]), policy, passes[n])
      then passes[n].later else LastChange(p, policy, passes[..n])
  }

  lemma {:induction false} LastChangeIs(p: P.Purchase, policy: Policy, passes: seq<Pass>)
    requires Unresolved(p.status) && policy.deadline > 0 && OnTime(passes)
    requires Unresolved(PurchaseAfter(p, policy, passes).status)
    ensures PurchaseAfter(p, policy, passes).updatedAt == LastChange(p, policy, passes)
  {
    if passes != [] {
      var n := |passes| - 1;
      var q := PurchaseAfter(p, policy, passes[..n]);
      ResolvedIff(p, policy, passes[..n]);
      if Resolved(q.status) { ResolvedStays(q, policy, passes[n]); } else {
        OnePass(q, policy, passes[n]);
        LastChangeIs(p, policy, passes[..n]);
      }
    }
  }

  // ----- How many passes it takes -----

  lemma {:induction false} LastPass(passes: seq<Pass>, gap: Time)
    requires Spaced(passes, gap) && passes != []
    ensures passes[|passes| - 1].now >= passes[0].now + (|passes| - 1) * gap
  {
    if |passes| > 1 {
      var front := passes[..|passes| - 1];
      assert front[0] == passes[0];
      LastPass(front, gap);
      assert (|passes| - 1) * gap == (|front| - 1) * gap + gap;
    }
  }

  function CeilDiv(a: Time, b: Time): (n: nat)
    requires b > 0
    ensures n * b >= a
  {
    if a <= 0 then 0 else (a + b - 1) / b
  }

  lemma Scale(m: nat, n: nat, gap: Time)
    requires m >= n && gap > 0
    ensures m * gap >= n * gap
  {
  }

  lemma LastPassIsLate(passes: seq<Pass>, gap: Time, wait: Time, start: Time)
    requires gap > 0 && |passes| >= CeilDiv(wait, gap) + 1 && Spaced(passes, gap) && passes[0].now >= start
    ensures passes[|passes| - 1].now >= start + wait
  {
    LastPass(passes, gap);
    Scale(|passes| - 1, CeilDiv(wait, gap), gap);
  }

  predicate ClaimsAt(p: P.Purchase, policy: Policy, passes: seq<Pass>, i: nat)
    requires i < |passes|
  {
    Claims(Met(p, policy, passes, i), policy, passes[i]) || Resolved(Met(p, policy, passes, i).status)
  }

  /** Every pass claims the row while it is unresolved. */
  ghost predicate AllClaim(p: P.Purchase, policy: Policy, passes: seq<Pass>) {
    forall i :: 0 <= i < |passes| ==> ClaimsAt(p, policy, passes, i)
  }

  /** A pass that claims the row at or after its deadline is the last one needed. */
  lemma ClaimedLate(p: P.Purchase, policy: Policy, passes: seq<Pass>, d: Time)
    requires Unresolved(p.status) && policy.deadline > 0 && OnTime(passes) && p.deadlineAt == Some(d) && passes != []
    requires passes[|passes| - 1].now >= d && AllClaim(p, policy, passes)
    ensures Resolved(PurchaseAfter(p, policy, passes).status)
  {
    var n := |passes| - 1;
    StoredResolvedIff(p, policy, passes, d);
    if Resolved(Met(p, policy, passes, n).status) {
      ResolvedStays(Met(p, policy, passes, n), policy, passes[n]);
    } else {
      assert ClaimsAt(p, policy, passes, n);
      assert Decides(p, policy, passes, n, d);
    }
  }

  /** Whether passes claim or not, a claim made before the deadline has run out one claim duration after it. */
  lemma {:induction false} ClaimsRunOut(p: P.Purchase, policy: Policy, passes: seq<Pass>, d: Time, c: Time)
    requires Unresolved(p.status) && policy.deadline > 0 && OnTime(passes) && p.deadlineAt == Some(d)
    requires NoneOrPast(p.claimedUntil, c) && c >= d + ClaimDuration(policy.interval)
    ensures var q := PurchaseAfter(p, policy, passes);
            Resolved(q.status) || (Unresolved(q.status) && q.deadlineAt == Some(d) && NoneOrPast(q.claimedUntil, c))
  {
    if passes != [] {
      var n := |passes| - 1;
      var q := PurchaseAfter(p, policy, passes[..n]);
      ClaimsRunOut(p, policy, passes[..n], d, c);
      if Resolved(q.status) { ResolvedStays(q, policy, passes[n]); } else { OnePass(q, policy, passes[n]); }
    }
  }

  lemma RunOutIsResolved(p: P.Purchase, policy: Policy, passes: seq<Pass>, d: Time, c: Time)
    requires Unresolved(p.status) && policy.deadline > 0 && OnTime(passes) && p.deadlineAt == Some(d) && passes != []
    requires NoneOrPast(p.claimedUntil, c) && c >= d + ClaimDuration(policy.interval)
    requires passes[|passes| - 1].now >= c
    ensures Resolved(PurchaseAfter(p, policy, passes).status)
  {
    var n := |passes| - 1;
    var q := PurchaseAfter(p, policy, passes[..n]);
    ClaimsRunOut(p, policy, passes[..n], d, c);
    if Resolved(q.status) { ResolvedStays(q, policy, passes[n]); } else { OnePass(q, policy, passes[n]); }
  }

  /** A purchase is resolved after ceil(deadline / gap) + 1 passes at least a gap apart, whatever the verifier answers, if
      each pass claims it; and after ceil((deadline + claim duration) / gap) + 1 passes in any case. The gap may be any. */
  lemma {:induction false} ResolvedByDeadline(pending: P.Purchase, hash: string, submittedAt: Time, policy: Policy,
                                              passes: seq<Pass>, gap: Time)
    requires policy.deadline > 0 && gap > 0 && Spaced(passes, gap) && OnTime(passes)
    requires pending.status == Pending && pending.hash.None?
    requires passes != [] && passes[0].now >= submittedAt
    ensures var s := P.Submit(pending, pending.userId, hash, submittedAt, submittedAt + policy.deadline, false, false);
            && s.Ok?
            && (|passes| >= CeilDiv(policy.deadline, gap) + 1 && AllClaim(s.value, policy, passes) ==>
                  Resolved(PurchaseAfter(s.value, policy, passes).status))
            && (|passes| >= CeilDiv(policy.deadline + ClaimDuration(policy.interval), gap) + 1 ==>
                  Resolved(PurchaseAfter(s.value, policy, passes).status))
  {
    var s := P.Submit(pending, pending.userId, hash, submittedAt, submittedAt + policy.deadline, false, false);
    if |passes| >= CeilDiv(policy.deadline, gap) + 1 && AllClaim(s.value, policy, passes) {
      EnoughClaims(s.value, submittedAt, policy, passes, gap);
    }
    if |passes| >= CeilDiv(policy.deadline + ClaimDuration(policy.interval), gap) + 1 {
      EnoughPasses(s.value, submittedAt, policy, passes, gap);
    }
  }

  /** A row as a submission leaves it. */
  predicate Fresh(p: P.Purchase, submittedAt: Time, policy: Policy) {
    p.status == Submitted && p.deadlineAt == Some(submittedAt + policy.deadline) && p.claimedUntil.None?
  }

  lemma EnoughClaims(p: P.Purchase, submittedAt: Time, policy: Policy, passes: seq<Pass>, gap: Time)
    requires policy.deadline > 0 && gap > 0 && Spaced(passes, gap) && OnTime(passes) && Fresh(p, submittedAt, policy)
    requires |passes| >= CeilDiv(policy.deadline, gap) + 1 && passes[0].now >= submittedAt && AllClaim(p, policy, passes)
    ensures Resolved(PurchaseAfter(p, policy, passes).status)
  {
    LastPassIsLate(passes, gap, policy.deadline, submittedAt);
    ClaimedLate(p, policy, passes, submittedAt + policy.deadline);
  }

  lemma EnoughPasses(p: P.Purchase, submittedAt: Time, policy: Policy, passes: seq<Pass>, gap: Time)
    requires policy.deadline > 0 && gap > 0 && Spaced(passes, gap) && OnTime(passes) && Fresh(p, submittedAt, policy)
    requires |passes| >= CeilDiv(policy.deadline + ClaimDuration(policy.interval), gap) + 1 && passes[0].now >= submittedAt
    ensures Resolved(PurchaseAfter(p, policy, passes).status)
  {
    var d, c := submittedAt + policy.deadline, ClaimDuration(policy.interval);
    LastPassIsLate(passes, gap, policy.deadline + c, submittedAt);
    RunOutIsResolved(p, policy, passes, d, d + c);
  }

  /** A gap that lets every pass claim the row again: the retry interval and the claim have run out. */
  predicate Wide(gap: Time, policy: Policy) { gap >= policy.interval && gap >= ClaimDuration(policy.interval) }

  /** A pass at this time would not be turned away. */
  predicate Free(p: P.Purchase, now: Time, policy: Policy) {
    NoneOrPast(p.claimedUntil, now) && NoneOrPast(p.lastAttemptAt, now - policy.interval)
  }

  lemma FreeNext(p: P.Purchase, policy: Policy, pass: Pass, gap: Time)
    requires Unresolved(p.status) && policy.deadline > 0 && policy.interval > 0 && Wide(gap, policy)
    requires pass.now <= pass.later && Free(p, pass.now, policy) && !Resolves(p, policy, pass)
    ensures Free(PurchaseNext(p, policy, pass), pass.now + gap, policy)
  {
  }

  lemma {:induction false} FreeAfter(p: P.Purchase, policy: Policy, passes: seq<Pass>, gap: Time)
    requires Unresolved(p.status) && policy.deadline > 0 && policy.interval > 0 && Wide(gap, policy)
    requires OnTime(passes) && Spaced(passes, gap) && passes != [] && Free(p, passes[0].now, policy)
    ensures var q := PurchaseAfter(p, policy, passes);
            Resolved(q.status) || (Unresolved(q.status) && Free(q, passes[|passes| - 1].now + gap, policy))
  {
    var n := |passes| - 1;
    var q := PurchaseAfter(p, policy, passes[..n]);
    if n > 0 {
      FreeAfter(p, policy, passes[..n], gap);
      assert passes[..n][n - 1] == passes[n - 1];
    }
    if Resolved(q.status) { ResolvedStays(q, policy, passes[n]); } else {
      OnePass(q, policy, passes[n]);
      if !Resolves(q, policy, passes[n]) { FreeNext(q, policy, passes[n], gap); }
    }
  }

  /** Passes a wide gap apart all claim the row, so that the smaller number of passes is enough. */
  lemma WideClaims(p: P.Purchase, policy: Policy, passes: seq<Pass>, gap: Time)
    requires Unresolved(p.status) && policy.deadline > 0 && policy.interval > 0 && Wide(gap, policy)
    requires OnTime(passes) && Spaced(passes, gap) && (passes != [] ==> Free(p, passes[0].now, policy))
    ensures AllClaim(p, policy, passes)
  {
    forall i | 0 <= i < |passes|
      ensures ClaimsAt(p, policy, passes, i)
    {
      if i > 0 {
        FreeAfter(p, policy, passes[..i], gap);
        assert passes[..i][i - 1] == passes[i - 1];
      }
    }
  }

  // ----- Requests -----

  /** A purchase at the same point of the protocol as a request. */
  function Counterpart(r: R.Request): P.Purchase {
    P.Purchase(r.id, r.id, r.creatorId, r.amountLunas, if r.status == Paid then Confirmed else r.status, None,
               r.deadlineAt, r.lastAttemptAt, r.claimedUntil, r.hash, r.createdAt, r.updatedAt, r.paidAt)
  }

  predicate RequestClaims(r: R.Request, policy: Policy, pass: Pass) { R.ClaimFor(Some(r), r, pass.now, policy).Some? }

  predicate RequestResolves(r: R.Request, policy: Policy, pass: Pass) {
    && RequestClaims(r, policy, pass)
    && (Final(pass.answer) || pass.now >= Coalesce(r.deadlineAt, r.updatedAt + policy.deadline))
  }

  function RequestMet(r: R.Request, policy: Policy, passes: seq<Pass>, i: nat): R.Request
    requires i <= |passes|
  {
    RequestAfter(r, policy, passes[..i])
  }

  lemma MatchedPass(p: P.Purchase, r: R.Request, policy: Policy, pass: Pass)
    requires Matched(p, r) && p.hash.Some? && R.HasPayer(r)
    ensures Claims(p, policy, pass) <==> RequestClaims(r, policy, pass)
    ensures Resolves(p, policy, pass) <==> RequestResolves(r, policy, pass)
    ensures Resolved(p.status) <==> Resolved(r.status)
  {
    ClaimAlike(p, r, pass.now, policy.interval, policy.interval, P.Stale(p, pass.now, policy));
  }

  predicate Payable(r: R.Request) { r.hash.Some? && R.HasPayer(r) && r.status != Confirmed }

  lemma MatchedRun(r: R.Request, policy: Policy, passes: seq<Pass>)
    requires Payable(r)
    ensures Matched(PurchaseAfter(Counterpart(r), policy, passes), RequestAfter(r, policy, passes))
    ensures PurchaseAfter(Counterpart(r), policy, passes).hash.Some? && R.HasPayer(RequestAfter(r, policy, passes))
    ensures Resolved(PurchaseAfter(Counterpart(r), policy, passes).status) <==> Resolved(RequestAfter(r, policy, passes).status)
  {
    RunsAlike(Counterpart(r), r, policy, passes);
  }

  lemma MatchedMet(r: R.Request, policy: Policy, passes: seq<Pass>, i: nat)
    requires Payable(r) && i < |passes|
    ensures var p, s := Met(Counterpart(r), policy, passes, i), RequestMet(r, policy, passes, i);
            && (Claims(p, policy, passes[i]) <==> RequestClaims(s, policy, passes[i]))
            && (Resolves(p, policy, passes[i]) <==> RequestResolves(s, policy, passes[i]))
            && (Resolved(p.status) <==> Resolved(s.status))
  {
    MatchedRun(r, policy, passes[..i]);
    MatchedPass(Met(Counterpart(r), policy, passes, i), RequestMet(r, policy, passes, i), policy, passes[i]);
  }

  ghost predicate SomeRequestResolves(r: R.Request, policy: Policy, passes: seq<Pass>) {
    exists i :: 0 <= i < |passes| && RequestResolves(RequestMet(r, policy, passes, i), policy, passes[i])
  }

  /** The same characterisation for requests with a hash and a payer, by the correspondence of the two reconcilers. */
  lemma RequestResolvedIff(r: R.Request, policy: Policy, passes: seq<Pass>)
    requires Unresolved(r.status) && Payable(r) && policy.deadline > 0 && OnTime(passes)
    ensures Resolved(RequestAfter(r, policy, passes).status) <==> SomeRequestResolves(r, policy, passes)
  {
    MatchedRun(r, policy, passes);
    ResolvedIff(Counterpart(r), policy, passes);
    if SomeResolves(Counterpart(r), policy, passes) {
      var i :| 0 <= i < |passes| && Resolves(Met(Counterpart(r), policy, passes, i), policy, passes[i]);
      MatchedMet(r, policy, passes, i);
    }
    if SomeRequestResolves(r, policy, passes) {
      var i :| 0 <= i < |passes| && RequestResolves(RequestMet(r, policy, passes, i), policy, passes[i]);
      MatchedMet(r, policy, passes, i);
    }
  }

  predicate RequestClaimsAt(r: R.Request, policy: Policy, passes: seq<Pass>, i: nat)
    requires i < |passes|
  {
    RequestClaims(RequestMet(r, policy, passes, i), policy, passes[i]) || Resolved(RequestMet(r, policy, passes, i).status)
  }

  ghost predicate AllRequestClaim(r: R.Request, policy: Policy, passes: seq<Pass>) {
    forall i :: 0 <= i < |passes| ==> RequestClaimsAt(r, policy, passes, i)
  }

  lemma AllClaimAlike(r: R.Request, policy: Policy, passes: seq<Pass>)
    requires Payable(r) && AllRequestClaim(r, policy, passes)
    ensures AllClaim(Counterpart(r), policy, passes)
  {
    forall i | 0 <= i < |passes|
      ensures ClaimsAt(Counterpart(r), policy, passes, i)
    {
      assert RequestClaimsAt(r, policy, passes, i);
      MatchedMet(r, policy, passes, i);
    }
  }

  /** The same two bounds for submitted requests. */
  lemma {:induction false} RequestResolvedByDeadline(pending: R.Request, payer: Uuid, hash: string, submittedAt: Time,
                                                     policy: Policy, passes: seq<Pass>, gap: Time)
    requires policy.deadline > 0 && gap > 0 && Spaced(passes, gap) && OnTime(passes)
    requires pending.status == Pending && pending.hash.None? && payer != NIL && submittedAt < pending.expiresAt
    requires passes != [] && passes[0].now >= submittedAt
    ensures var s := R.Submit(pending, payer, hash, submittedAt, submittedAt + policy.deadline, false);
            && s.Ok?
            && (|passes| >= CeilDiv(policy.deadline, gap) + 1 && AllRequestClaim(s.value, policy, passes) ==>
                  Resolved(RequestAfter(s.value, policy, passes).status))
            && (|passes| >= CeilDiv(policy.deadline + ClaimDuration(policy.interval), gap) + 1 ==>
                  Resolved(RequestAfter(s.value, policy, passes).status))
  {
    var r := R.Submit(pending, payer, hash, submittedAt, submittedAt + policy.deadline, false).value;
    MatchedRun(r, policy, passes);
    if |passes| >= CeilDiv(policy.deadline, gap) + 1 && AllRequestClaim(r, policy, passes) {
      AllClaimAlike(r, policy, passes);
      EnoughClaims(Counterpart(r), submittedAt, policy, passes, gap);
    }
    if |passes| >= CeilDiv(policy.deadline + ClaimDuration(policy.interval), gap) + 1 {
      EnoughPasses(Counterpart(r), submittedAt, policy, passes, gap);
    }
  }
}
