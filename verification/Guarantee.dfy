/** Which rows a worker that keeps passing is guaranteed to resolve, whatever the verifier answers. */
module Guarantee {
  import opened Deadline
  import opened Payment
  import P = Purchases
  import R = Requests
  import opened Reconcilers
  import opened Text

  /** A worker whose passes start at least `gap` after the one before has written, as late as they like. */
  ghost predicate Steady(passes: seq<Pass>, gap: Time) {
    OnTime(passes) && forall i :: 0 < i < |passes| ==> passes[i - 1].later + gap <= passes[i].now
  }

  /** Any n passes of such a worker, whatever they hear, resolve the row. */
  ghost predicate Within(p: P.Purchase, policy: Policy, gap: Time, start: Time, n: nat) {
    forall passes: seq<Pass> :: |passes| >= n && passes != [] && Steady(passes, gap) && passes[0].now >= start ==>
      Resolved(PurchaseAfter(p, policy, passes).status)
  }

  ghost predicate Guaranteed(p: P.Purchase, policy: Policy, gap: Time, start: Time) {
    exists n: nat :: Within(p, policy, gap, start, n)
  }

  function Max(a: Time, b: Time): Time { if a >= b then a else b }

  /** From when on a worker that starts at `start` is not turned away by an earlier claim or attempt. */
  function Ready(claimedUntil: Option<Time>, lastAttemptAt: Option<Time>, policy: Policy, start: Time): (t: Time)
    ensures t >= start
  {
    var retry := if lastAttemptAt.Some? then lastAttemptAt.value + policy.interval else start;
    Max(start, Max(Coalesce(claimedUntil, start), retry))
  }

  function ReadyAt(p: P.Purchase, policy: Policy, start: Time): (t: Time)
    ensures t >= start
  {
    Ready(p.claimedUntil, p.lastAttemptAt, policy, start)
  }

  lemma ReadyMeansFree(p: P.Purchase, policy: Policy, start: Time, now: Time)
    requires now >= start
    ensures Free(p, now, policy) <==> now >= ReadyAt(p, policy, start)
  {
  }

  // ----- Passes of a steady worker -----

  lemma SteadyIsSpaced(passes: seq<Pass>, gap: Time)
    requires Steady(passes, gap)
    ensures Spaced(passes, gap)
  {
  }

  lemma {:induction false} SteadyFollows(passes: seq<Pass>, gap: Time)
    requires Steady(passes, gap) && gap > 0 && passes != []
    ensures passes[|passes| - 1].now >= passes[0].now
  {
    var n := |passes| - 1;
    if n > 0 {
      SteadyFollows(passes[..n], gap);
      assert passes[..n][n - 1] == passes[n - 1] && passes[..n][0] == passes[0];
    }
  }

  /** Enough passes reach any instant. */
  lemma PassesReach(passes: seq<Pass>, gap: Time, start: Time, c: Time)
    requires gap > 0 && Steady(passes, gap) && passes != [] && passes[0].now >= start
    requires |passes| >= CeilDiv(c - start, gap) + 1
    ensures passes[|passes| - 1].now >= c
  {
    SteadyIsSpaced(passes, gap);
    LastPassIsLate(passes, gap, c - start, start);
  }

  /** A stale row that is not claimed by anybody is claimed and resolved. */
  lemma StaleIsResolved(p: P.Purchase, policy: Policy, pass: Pass)
    requires Unresolved(p.status) && policy.deadline > 0 && pass.now <= pass.later
    requires pass.now >= Due(p, policy) && NoneOrPast(p.claimedUntil, pass.now)
    ensures Resolved(PurchaseNext(p, policy, pass).status)
  {
  }

  // ----- Stored deadlines -----

  lemma StoredIsGuaranteed(p: P.Purchase, policy: Policy, gap: Time, start: Time)
    requires policy.interval > 0 && policy.deadline > 0 && gap > 0 && Unresolved(p.status) && p.deadlineAt.Some?
    ensures Guaranteed(p, policy, gap, start)
  {
    var d := p.deadlineAt.value;
    var c := Max(ReadyAt(p, policy, start), d + ClaimDuration(policy.interval));
    var n := CeilDiv(c - start, gap) + 1;
    forall passes: seq<Pass> | |passes| >= n && passes != [] && Steady(passes, gap) && passes[0].now >= start
      ensures Resolved(PurchaseAfter(p, policy, passes).status)
    {
      PassesReach(passes, gap, start, c);
      RunOutIsResolved(p, policy, passes, d, c);
    }
    assert Within(p, policy, gap, start, n);
  }

  // ----- No stored deadline, but a worker that is slow enough -----

  /** An instant from which on the row is stale unless it is renewed, and free of claims made before that. */
  predicate Settling(p: P.Purchase, policy: Policy, c: Time) {
    NoneOrPast(p.claimedUntil, c) && c >= p.updatedAt + policy.deadline + ClaimDuration(policy.interval)
  }

  /** The row is as it was but for claims that run out by c, or has been renewed no later than `last`. */
  predicate Lingers(q: P.Purchase, p: P.Purchase, last: Time, c: Time) {
    && Unresolved(q.status) && q.deadlineAt.None? && NoneOrPast(q.claimedUntil, c)
    && (q.updatedAt == p.updatedAt || q.updatedAt <= last)
  }

  lemma LingersOn(q: P.Purchase, p: P.Purchase, policy: Policy, pass: Pass, last: Time, c: Time)
    requires Lingers(q, p, last, c) && Settling(p, policy, c) && policy.deadline > 0
    requires last + policy.deadline <= pass.now <= pass.later
    ensures var next := PurchaseNext(q, policy, pass);
            || Resolved(next.status)
            || (Lingers(next, p, pass.later, c) && pass.now < c)
  {
    OnePass(q, policy, pass);
    if pass.now >= c { StaleIsResolved(q, policy, pass); }
  }

  lemma {:induction false} SlowLingers(p: P.Purchase, policy: Policy, passes: seq<Pass>, gap: Time, c: Time)
    requires Unresolved(p.status) && p.deadlineAt.None? && 0 < policy.deadline <= gap && Settling(p, policy, c)
    requires passes != [] && Steady(passes, gap)
    ensures var q, last := PurchaseAfter(p, policy, passes), passes[|passes| - 1];
            Resolved(q.status) || (Lingers(q, p, last.later, c) && last.now < c)
  {
    var n := |passes| - 1;
    var q := PurchaseAfter(p, policy, passes[..n]);
    if n == 0 {
      LingersOn(p, p, policy, passes[0], passes[0].now - policy.deadline, c);
    } else {
      SlowLingers(p, policy, passes[..n], gap, c);
      if Resolved(q.status) {
        ResolvedStays(q, policy, passes[n]);
      } else {
        LingersOn(q, p, policy, passes[n], passes[n - 1].later, c);
      }
    }
  }

  lemma SlowIsGuaranteed(p: P.Purchase, policy: Policy, gap: Time, start: Time)
    requires Unresolved(p.status) && p.deadlineAt.None? && 0 < policy.deadline <= gap && policy.interval > 0
    ensures Guaranteed(p, policy, gap, start)
  {
    var c := Max(ReadyAt(p, policy, start), p.updatedAt + policy.deadline + ClaimDuration(policy.interval));
    var n := CeilDiv(c - start, gap) + 1;
    forall passes: seq<Pass> | |passes| >= n && passes != [] && Steady(passes, gap) && passes[0].now >= start
      ensures Resolved(PurchaseAfter(p, policy, passes).status)
    {
      PassesReach(passes, gap, start, c);
      SlowLingers(p, policy, passes, gap, c);
    }
    assert Within(p, policy, gap, start, n);
  }

  // ----- No stored deadline, but stale before anybody can claim and renew the row -----

  /** A pass that comes too early changes nothing, or finds the row stale. */
  lemma TooEarly(p: P.Purchase, policy: Policy, pass: Pass, start: Time)
    requires Unresolved(p.status) && policy.deadline > 0 && policy.interval > 0 && start <= pass.now <= pass.later
    requires ReadyAt(p, policy, start) >= Due(p, policy)
    ensures var q := PurchaseNext(p, policy, pass); Resolved(q.status) || (q == p && pass.now < ReadyAt(p, policy, start))
  {
    ReadyMeansFree(p, policy, start, pass.now);
    OnePass(p, policy, pass);
    if pass.now >= Due(p, policy) && NoneOrPast(p.claimedUntil, pass.now) { StaleIsResolved(p, policy, pass); }
  }

  lemma {:induction false} StaleWaits(p: P.Purchase, policy: Policy, passes: seq<Pass>, gap: Time, start: Time)
    requires Unresolved(p.status) && policy.deadline > 0 && policy.interval > 0 && gap > 0
    requires ReadyAt(p, policy, start) >= Due(p, policy)
    requires passes != [] && Steady(passes, gap) && passes[0].now >= start
    ensures var q := PurchaseAfter(p, policy, passes);
            Resolved(q.status) || (q == p && passes[|passes| - 1].now < ReadyAt(p, policy, start))
  {
    var n := |passes| - 1;
    var q := PurchaseAfter(p, policy, passes[..n]);
    SteadyFollows(passes, gap);
    if n > 0 { StaleWaits(p, policy, passes[..n], gap, start); }
    if Resolved(q.status) { ResolvedStays(q, policy, passes[n]); } else { TooEarly(p, policy, passes[n], start); }
  }

  lemma StaleIsGuaranteed(p: P.Purchase, policy: Policy, gap: Time, start: Time)
    requires Unresolved(p.status) && policy.deadline > 0 && policy.interval > 0 && gap > 0
    requires ReadyAt(p, policy, start) >= Due(p, policy)
    ensures Guaranteed(p, policy, gap, start)
  {
    var n := CeilDiv(ReadyAt(p, policy, start) - start, gap) + 1;
    forall passes: seq<Pass> | |passes| >= n && passes != [] && Steady(passes, gap) && passes[0].now >= start
      ensures Resolved(PurchaseAfter(p, policy, passes).status)
    {
      PassesReach(passes, gap, start, ReadyAt(p, policy, start));
      StaleWaits(p, policy, passes, gap, start);
    }
    assert Within(p, policy, gap, start, n);
  }

  // ----- No stored deadline, and a worker that is fast enough to renew the row -----

  /** The k-th of instants a step apart. */
  function At(start: Time, step: Time, k: nat): Time { if k == 0 then start else At(start, step, k - 1) + step }

  /** A pass that hears "not final" and writes one retry interval after it has claimed. */
  function Renewal(start: Time, gap: Time, policy: Policy, k: nat): Pass {
    var now := At(start, policy.interval + gap, k);
    Pass(now, IsNotFinal, now + policy.interval)
  }

  function Renewals(start: Time, gap: Time, policy: Policy, n: nat): (passes: seq<Pass>)
    ensures |passes| == n && forall i :: 0 <= i < n ==> passes[i] == Renewal(start, gap, policy, i)
  {
    if n == 0 then [] else Renewals(start, gap, policy, n - 1) + [Renewal(start, gap, policy, n - 1)]
  }

  lemma RenewalsSteady(start: Time, gap: Time, policy: Policy, n: nat)
    requires policy.interval > 0
    ensures Steady(Renewals(start, gap, policy, n), gap)
  {
    var passes := Renewals(start, gap, policy, n);
    forall i | 0 < i < n
      ensures passes[i - 1].later + gap <= passes[i].now
    {
      assert At(start, policy.interval + gap, i) == At(start, policy.interval + gap, i - 1) + policy.interval + gap;
    }
  }

  /** A row renewed by the latest renewal. */
  predicate Renewed(p: P.Purchase, policy: Policy, pass: Pass) {
    && Unresolved(p.status) && p.deadlineAt.None? && p.claimedUntil.None?
    && p.lastAttemptAt == Some(pass.now) && p.updatedAt == pass.later
  }

  lemma RenewalRenews(p: P.Purchase, policy: Policy, pass: Pass)
    requires Unresolved(p.status) && p.deadlineAt.None? && policy.deadline > 0 && policy.interval > 0
    requires Free(p, pass.now, policy) && pass.now < p.updatedAt + policy.deadline
    requires pass.answer == IsNotFinal && pass.now <= pass.later
    ensures Renewed(PurchaseNext(p, policy, pass), policy, pass)
  {
  }

  /** A row without a stored deadline that a pass at this time can claim and is not stale then. */
  predicate Renewable(p: P.Purchase, policy: Policy, now: Time) {
    Unresolved(p.status) && p.deadlineAt.None? && Free(p, now, policy) && now < p.updatedAt + policy.deadline
  }

  lemma {:induction false} RenewalsNeverResolve(p: P.Purchase, policy: Policy, gap: Time, start: Time, n: nat)
    requires Renewable(p, policy, start) && policy.interval > 0 && 0 < gap < policy.deadline && n > 0
    ensures Renewed(PurchaseAfter(p, policy, Renewals(start, gap, policy, n)), policy, Renewal(start, gap, policy, n - 1))
  {
    var passes := Renewals(start, gap, policy, n);
    assert passes[..n - 1] == Renewals(start, gap, policy, n - 1);
    if n > 1 { RenewalsNeverResolve(p, policy, gap, start, n - 1); }
    RenewalRenews(PurchaseAfter(p, policy, passes[..n - 1]), policy, passes[n - 1]);
  }

  lemma RenewalsOutlast(p: P.Purchase, policy: Policy, gap: Time, start: Time, from: Time, n: nat)
    requires Renewable(p, policy, from) && from >= start && policy.interval > 0 && 0 < gap < policy.deadline
    ensures !Within(p, policy, gap, start, n)
  {
    var passes := Renewals(from, gap, policy, n + 1);
    RenewalsSteady(from, gap, policy, n + 1);
    RenewalsNeverResolve(p, policy, gap, from, n + 1);
    FirstRenewal(from, gap, policy, n + 1);
    assert !Resolved(PurchaseAfter(p, policy, passes).status);
  }

  lemma FirstRenewal(start: Time, gap: Time, policy: Policy, n: nat)
    requires n > 0
    ensures Renewals(start, gap, policy, n)[0].now == start
  {
    assert Renewals(start, gap, policy, n)[0] == Renewal(start, gap, policy, 0);
  }

  /** However many passes one is willing to wait for, some worker within the gap has not resolved the row by then, if the
      row can be claimed before it is stale. */
  lemma FastIsNotGuaranteed(p: P.Purchase, policy: Policy, gap: Time, start: Time)
    requires Unresolved(p.status) && p.deadlineAt.None? && policy.interval > 0 && 0 < gap < policy.deadline
    requires ReadyAt(p, policy, start) < p.updatedAt + policy.deadline
    ensures !Guaranteed(p, policy, gap, start)
  {
    var from := ReadyAt(p, policy, start);
    ReadyMeansFree(p, policy, start, from);
    forall n: nat
      ensures !Within(p, policy, gap, start, n)
    {
      RenewalsOutlast(p, policy, gap, start, from, n);
    }
  }

  // ----- The condition -----

  /** A worker is guaranteed to resolve an unresolved purchase, whatever the verifier answers, exactly if the purchase's
      deadline is stored, or the worker pauses for a whole deadline between its passes, or the purchase is stale by the
      time it can be claimed. */
  lemma GuaranteeIff(p: P.Purchase, policy: Policy, gap: Time, start: Time)
    requires policy.interval > 0 && policy.deadline > 0 && gap > 0 && Unresolved(p.status)
    ensures Guaranteed(p, policy, gap, start)
            <==> p.deadlineAt.Some? || gap >= policy.deadline
                 || Ready(p.claimedUntil, p.lastAttemptAt, policy, start) >= p.updatedAt + policy.deadline
  {
    if p.deadlineAt.Some? {
      StoredIsGuaranteed(p, policy, gap, start);
    } else if gap >= policy.deadline {
      SlowIsGuaranteed(p, policy, gap, start);
    } else if ReadyAt(p, policy, start) >= p.updatedAt + policy.deadline {
      StaleIsGuaranteed(p, policy, gap, start);
    } else {
      FastIsNotGuaranteed(p, policy, gap, start);
    }
  }

  ghost predicate RequestWithin(r: R.Request, policy: Policy, gap: Time, start: Time, n: nat) {
    forall passes: seq<Pass> :: |passes| >= n && passes != [] && Steady(passes, gap) && passes[0].now >= start ==>
      Resolved(RequestAfter(r, policy, passes).status)
  }

  ghost predicate RequestGuaranteed(r: R.Request, policy: Policy, gap: Time, start: Time) {
    exists n: nat :: RequestWithin(r, policy, gap, start, n)
  }

  lemma WithinAlike(r: R.Request, policy: Policy, gap: Time, start: Time, n: nat)
    requires Payable(r)
    ensures RequestWithin(r, policy, gap, start, n) <==> Within(Counterpart(r), policy, gap, start, n)
  {
    forall passes: seq<Pass>
      ensures Resolved(RequestAfter(r, policy, passes).status)
              <==> Resolved(PurchaseAfter(Counterpart(r), policy, passes).status)
    {
      MatchedRun(r, policy, passes);
    }
  }

  /** The same condition for requests with a hash and a payer. */
  lemma RequestGuaranteeIff(r: R.Request, policy: Policy, gap: Time, start: Time)
    requires policy.interval > 0 && policy.deadline > 0 && gap > 0
    requires Payable(r) && Unresolved(r.status)
    ensures RequestGuaranteed(r, policy, gap, start)
            <==> r.deadlineAt.Some? || gap >= policy.deadline
                 || Ready(r.claimedUntil, r.lastAttemptAt, policy, start) >= r.updatedAt + policy.deadline
  {
    GuaranteeIff(Counterpart(r), policy, gap, start);
    if RequestGuaranteed(r, policy, gap, start) {
      var n: nat :| RequestWithin(r, policy, gap, start, n);
      WithinAlike(r, policy, gap, start, n);
    }
    if Guaranteed(Counterpart(r), policy, gap, start) {
      var n: nat :| Within(Counterpart(r), policy, gap, start, n);
      WithinAlike(r, policy, gap, start, n);
    }
  }
}
