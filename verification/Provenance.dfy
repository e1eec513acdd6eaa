/** Why a row is what it is: in every run, each status goes back to a step that was entitled to give it. */
module Provenance {
  import opened Ledger
  import opened NimiqTx
  import opened Payment
  import P = Purchases
  import R = Requests
  import opened Rooms
  import opened Text

  // ----- What may give a row its status -----

  /** A user's submission of a new hash for a pending row: the buyer's own, while the event is not cancelled, or anybody's
      payment of a request that has not expired, who becomes its payer. */
  predicate Submits(s: Ledger, env: Env, step: Step, key: Key, a: Row, b: Row) {
    && step.SubmitTransaction? && step.key == key && step.actor != NIL && StatusOf(a) == Pending
    && HashOf(b) == NormalHash(step.raw) && HashOf(b).Some? && HashOf(b).value !in s.consumed
    && match (a, b)
       case (PurchaseRow(p), PurchaseRow(q)) =>
         p.userId == step.actor && !step.eventCancelled && q.deadlineAt == Some(step.now + env.policy.deadline)
       case (RequestRow(r), RequestRow(t)) =>
         && t.payerId == Some(step.actor) && step.now < r.expiresAt
         && t.deadlineAt == Some(step.now + env.policy.deadline)
       case _ => false
  }

  /** A pending row's time to be paid is over. */
  predicate Over(row: Row, now: Time) {
    match row
    case PurchaseRow(p) => p.holdExpiresAt.Some? && p.holdExpiresAt.value <= now
    case RequestRow(r) => r.expiresAt <= now
  }

  predicate Lapses(step: Step, key: Key, a: Row) {
    && StatusOf(a) == Pending && (step.ExpirePending? || step.CancelRequest?) && step.key == key && Over(a, step.now)
  }

  /** An unresolved row's deadline: the stored one, or one policy deadline in whole seconds after its last change. */
  function DeadlineOf(row: Row, policy: Policy): Time {
    match row
    case PurchaseRow(p) => Coalesce(p.deadlineAt, p.updatedAt + FallbackDeadline(policy.deadline))
    case RequestRow(r) => Coalesce(r.deadlineAt, r.updatedAt + FallbackDeadline(policy.deadline))
  }

  /** A worker with this decision about the row writes it. */
  predicate Writes(s: Ledger, step: Step, key: Key, decision: Decision) {
    && step.Write? && step.worker in s.workers
    && s.workers[step.worker].Answered? && s.workers[step.worker].key == key && s.workers[step.worker].decision == decision
  }

  predicate RunsOut(s: Ledger, env: Env, step: Step, key: Key, a: Row) {
    Unresolved(StatusOf(a)) && Writes(s, step, key, Expire) && DeadlineOf(a, env.policy) <= step.now
  }

  ghost predicate Concludes(s: Ledger, step: Step, key: Key, a: Row, status: Status) {
    Unresolved(StatusOf(a)) && exists category :: Writes(s, step, key, Persist(status, category))
  }

  predicate Recovers(s: Ledger, step: Step, key: Key, a: Row) {
    && StatusOf(a) == Expired && HashOf(a).Some? && HashOf(a).value in s.consumed && s.consumed[HashOf(a).value] == key
    && step.ConfirmExpired? && step.worker in s.workers
    && s.workers[step.worker].Recovering? && s.workers[step.worker].key == key
  }

  /** A pending request is cancelled by its creator in time or with its creator's account; a pending purchase by the
      recovery of another one of the same user and event. */
  predicate Cancels(s: Ledger, step: Step, key: Key, a: Row) {
    && StatusOf(a) == Pending
    && match a
       case RequestRow(r) =>
         || (step.CancelRequest? && step.key == key && step.actor == r.creatorId && step.now < r.expiresAt)
         || (step.DeleteAccount? && step.user == r.creatorId)
       case PurchaseRow(p) =>
         && step.ConfirmExpired? && step.worker in s.workers && s.workers[step.worker].key in s.rows
         && s.workers[step.worker].key != key
         && Recovers(s, step, s.workers[step.worker].key, s.rows[s.workers[step.worker].key])
         && SameSale(s.rows[s.workers[step.worker].key], p)
  }

  predicate SameSale(row: Row, p: P.Purchase) { row.PurchaseRow? && row.p.eventId == p.eventId && row.p.userId == p.userId }

  /** A step that can turn row a into row b, of another status. */
  ghost predicate Cause(s: Ledger, env: Env, step: Step, key: Key, a: Row, b: Row) {
    match StatusOf(b)
    case Pending => false
    case Submitted => Submits(s, env, step, key, a, b)
    case Cancelled => Cancels(s, step, key, a)
    case Expired => Lapses(step, key, a) || RunsOut(s, env, step, key, a)
    case Verifying => Concludes(s, step, key, a, Verifying)
    case Failed => Concludes(s, step, key, a, Failed)
    case _ => Concludes(s, step, key, a, StatusOf(b)) || Recovers(s, step, key, a)
  }

  /** What a step has made of a row: a change of status has its cause, and a hash is stored by a submission only. */
  ghost predicate Caused(s: Ledger, env: Env, step: Step, key: Key, a: Row, b: Row) {
    && (StatusOf(b) != StatusOf(a) ==> Cause(s, env, step, key, a, b))
    && (HashOf(b) != HashOf(a) ==> Submits(s, env, step, key, a, b))
  }

  // ----- One step -----

  /** The row after a step; rows never go away. */
  function Next(s: Ledger, env: Env, step: Step, key: Key): Row
    requires key in s.rows
  {
    var rows := Apply(s, env, step).rows;
    if key in rows then rows[key] else s.rows[key]
  }

  lemma SubmitCause(s: Ledger, env: Env, step: Step, key: Key, hash: string, b: Row)
    requires key in s.rows && Sound(s.rows[key]) && step.SubmitTransaction? && step.key == key && step.actor != NIL
    requires NormalHash(step.raw) == Some(hash) && b != s.rows[key]
    requires Submit(s.rows[key], step.actor, hash, step.now, step.now + env.policy.deadline, step.eventCancelled,
                    Used(s.consumed, hash)) == Ok(b)
    ensures StatusOf(b) == Submitted && Submits(s, env, step, key, s.rows[key], b)
  {
  }

  lemma NotSubmitted(s: Ledger, env: Env, step: Step, key: Key)
    requires key in s.rows && step.SubmitTransaction?
    requires step.key != key || step.actor == NIL || NormalHash(step.raw).None?
    ensures Next(s, env, step, key) == s.rows[key]
  {
  }

  lemma SubmittedRow(s: Ledger, env: Env, step: Step, hash: string)
    requires step.SubmitTransaction? && step.key in s.rows && step.actor != NIL && NormalHash(step.raw) == Some(hash)
    ensures var r := Submit(s.rows[step.key], step.actor, hash, step.now, step.now + env.policy.deadline, step.eventCancelled,
                            Used(s.consumed, hash));
            Next(s, env, step, step.key) == if r.Ok? then r.value else s.rows[step.key]
  {
    var r := Submit(s.rows[step.key], step.actor, hash, step.now, step.now + env.policy.deadline, step.eventCancelled,
                    Used(s.consumed, hash));
    SubmitRows(s, env, step.key, step.actor, hash, step.now, step.eventCancelled);
    assert Apply(s, env, step) == DoSubmit(s, env, step.key, step.actor, hash, step.now, step.eventCancelled);
  }

  lemma SubmitRows(s: Ledger, env: Env, key: Key, actor: Uuid, hash: string, now: Time, eventCancelled: bool)
    requires key in s.rows
    ensures var r := Submit(s.rows[key], actor, hash, now, now + env.policy.deadline, eventCancelled, Used(s.consumed, hash));
            DoSubmit(s, env, key, actor, hash, now, eventCancelled).rows == if r.Ok? then s.rows[key := r.value] else s.rows
  {
    match Submit(s.rows[key], actor, hash, now, now + env.policy.deadline, eventCancelled, Used(s.consumed, hash))
    case Err(_) =>
    case Ok(row) =>
      SubmitAccepts(s, env, key, actor, hash, now, eventCancelled, row);
      AcceptRows(s, key, row, hash);
  }

  lemma AcceptRows(s: Ledger, key: Key, row: Row, hash: string)
    ensures Accept(s, key, row, hash).rows == s.rows[key := row]
  {
  }

  lemma SubmitStepCause(s: Ledger, env: Env, step: Step, key: Key)
    requires key in s.rows && Sound(s.rows[key]) && step.SubmitTransaction?
    ensures Caused(s, env, step, key, s.rows[key], Next(s, env, step, key))
  {
    if step.key == key && step.actor != NIL && NormalHash(step.raw).Some? {
      SubmittedRow(s, env, step, NormalHash(step.raw).value);
      var b := Next(s, env, step, key);
      if b != s.rows[key] { SubmitCause(s, env, step, key, NormalHash(step.raw).value, b); }
    } else {
      NotSubmitted(s, env, step, key);
    }
  }

  lemma ExpireStepCause(s: Ledger, env: Env, step: Step, key: Key)
    requires key in s.rows && step.ExpirePending?
    ensures Caused(s, env, step, key, s.rows[key], Next(s, env, step, key))
  {
  }

  /** A read of a row whose time is over leaves it expired. */
  lemma OverIsExpired(s: Ledger, env: Env, key: Key, now: Time)
    requires key in s.rows && StatusOf(s.rows[key]) == Pending
    ensures StatusOf(Next(s, env, ExpirePending(key, now), key)) == if Over(s.rows[key], now) then Expired else Pending
  {
  }

  lemma CancelCause(s: Ledger, env: Env, step: Step, key: Key, b: Row)
    requires key in s.rows && step.CancelRequest? && step.key == key && Cancel(s.rows[key], step.actor, step.now) == Ok(b)
    ensures Caused(s, env, step, key, s.rows[key], b)
  {
  }

  lemma CancelStepCause(s: Ledger, env: Env, step: Step, key: Key)
    requires key in s.rows && step.CancelRequest?
    ensures Caused(s, env, step, key, s.rows[key], Next(s, env, step, key))
  {
    var c := Cancel(s.rows[key], step.actor, step.now);
    if step.key == key && c.Ok? { CancelCause(s, env, step, key, c.value); }
    assert Next(s, env, step, key) == if step.key == key && c.Ok? then c.value else s.rows[key];
  }

  lemma DeleteStepCause(s: Ledger, env: Env, step: Step, key: Key)
    requires key in s.rows && step.DeleteAccount?
    ensures Caused(s, env, step, key, s.rows[key], Next(s, env, step, key))
  {
  }

  /** A claim changes no status. */
  lemma ClaimStepCause(s: Ledger, env: Env, step: Step, key: Key)
    requires key in s.rows && Sound(s.rows[key]) && step.Claim?
    ensures Caused(s, env, step, key, s.rows[key], Next(s, env, step, key))
  {
    if step.worker in s.workers && s.workers[step.worker].Fetched? && s.workers[step.worker].key == key {
      match Open(s.workers[step.worker].candidate, step.now, env.policy)
      case TryClaim(stale) => ClaimEvolves(s.rows[key], step.now, env.policy, stale);
      case _ =>
    }
  }

  /** What acting on a decision makes of the row. */
  lemma ActCause(row: Row, claimed: Row, decision: Decision, now: Time, policy: Policy)
    requires Sound(row) && Evolves(claimed, row) && Fits(claimed, decision)
    ensures var b := Act(row, claimed, decision, now, policy).0;
            && HashOf(b) == HashOf(row)
            && (StatusOf(b) == StatusOf(row)
                || (Unresolved(StatusOf(row))
                    && if StatusOf(b) == Expired then decision == Expire && DeadlineOf(row, policy) <= now
                       else decision.Persist? && decision.status == StatusOf(b) && StatusOf(b) in {Verifying, Failed, Confirmed, Paid}))
  {
  }

  lemma WrittenRow(s: Ledger, env: Env, step: Step, key: Key)
    requires key in s.rows && step.Write?
    ensures if step.worker in s.workers && s.workers[step.worker].Answered? && s.workers[step.worker].key == key then
              var w := s.workers[step.worker];
              Next(s, env, step, key) == Act(s.rows[key], w.claimed, w.decision, step.now, env.policy).0
            else Next(s, env, step, key) == s.rows[key]
  {
  }

  lemma WriteStepCause(s: Ledger, env: Env, step: Step, key: Key)
    requires key in s.rows && Sound(s.rows[key]) && step.Write?
    requires WorkersSound(s.workers, s.rows, env.merchant, s.confirmed)
    ensures Caused(s, env, step, key, s.rows[key], Next(s, env, step, key))
  {
    WrittenRow(s, env, step, key);
    if step.worker in s.workers && s.workers[step.worker].Answered? && s.workers[step.worker].key == key {
      var w := s.workers[step.worker];
      assert PhaseSound(w, s.rows, env.merchant, s.confirmed);
      ActCause(s.rows[key], w.claimed, w.decision, step.now, env.policy);
      if w.decision.Persist? { assert Writes(s, step, key, Persist(w.decision.status, w.decision.category)); }
    }
  }

  lemma RecoverCause(row: Row, now: Time, reserved: bool, rival: bool)
    requires Sound(row) && Recover(row, now, reserved, rival).Ok?
    ensures var b := Recover(row, now, reserved, rival).value;
            && (b == row || (StatusOf(row) == Expired && Settled(StatusOf(b)) && HashOf(b) == HashOf(row) && reserved))
            && (row.PurchaseRow? <==> b.PurchaseRow?)
            && (row.PurchaseRow? ==> SameSale(row, b.p))
  {
  }

  lemma ReleaseCause(row: Row, recovered: Row, now: Time)
    ensures var b := Release(row, recovered, now);
            b == row || (row.PurchaseRow? && StatusOf(row) == Pending && StatusOf(b) == Cancelled && HashOf(b) == HashOf(row)
                         && SameSale(recovered, row.p))
  {
  }

  /** The worker's recovery goes through: its row becomes `row`. */
  predicate Recovering(s: Ledger, step: Step, row: Row) {
    && step.ConfirmExpired? && step.worker in s.workers
    && s.workers[step.worker].Recovering? && s.workers[step.worker].key in s.rows
    && Recover(s.rows[s.workers[step.worker].key], step.now, OwnsHash(s, s.workers[step.worker].key), step.rival) == Ok(row)
  }

  lemma ConfirmedRow(s: Ledger, env: Env, step: Step, key: Key) returns (row: Row)
    requires key in s.rows && step.ConfirmExpired?
    ensures var b := Next(s, env, step, key);
            || b == s.rows[key]
            || (Recovering(s, step, row)
                && if key == s.workers[step.worker].key then b == row
                   else StatusOf(s.rows[s.workers[step.worker].key]) == Expired && b == Release(s.rows[key], row, step.now))
  {
    row := s.rows[key];
    if step.worker in s.workers && s.workers[step.worker].Recovering? && s.workers[step.worker].key in s.rows {
      var w := s.workers[step.worker];
      var r := Recover(s.rows[w.key], step.now, OwnsHash(s, w.key), step.rival);
      if r.Ok? { row := r.value; }
    }
  }

  lemma ConfirmStepCause(s: Ledger, env: Env, step: Step, key: Key)
    requires RowsSound(s.rows) && key in s.rows && step.ConfirmExpired?
    ensures Caused(s, env, step, key, s.rows[key], Next(s, env, step, key))
  {
    var row := ConfirmedRow(s, env, step, key);
    if Next(s, env, step, key) != s.rows[key] {
      var k := s.workers[step.worker].key;
      RecoverCause(s.rows[k], step.now, OwnsHash(s, k), step.rival);
      if key == k { RecoveredCause(s, env, step, row); } else { ReleasedCause(s, env, step, key, row); }
    }
  }

  lemma RecoveredCause(s: Ledger, env: Env, step: Step, row: Row)
    requires RowsSound(s.rows) && Recovering(s, step, row)
    ensures var k := s.workers[step.worker].key; Caused(s, env, step, k, s.rows[k], row)
  {
    var k := s.workers[step.worker].key;
    RecoverCause(s.rows[k], step.now, OwnsHash(s, k), step.rival);
  }

  lemma ReleasedCause(s: Ledger, env: Env, step: Step, key: Key, row: Row)
    requires RowsSound(s.rows) && Recovering(s, step, row) && key in s.rows && key != s.workers[step.worker].key
    requires StatusOf(s.rows[s.workers[step.worker].key]) == Expired
    ensures Caused(s, env, step, key, s.rows[key], Release(s.rows[key], row, step.now))
  {
    var k := s.workers[step.worker].key;
    RecoverCause(s.rows[k], step.now, OwnsHash(s, k), step.rival);
    ReleaseCause(s.rows[key], row, step.now);
    assert Settled(StatusOf(row));
  }

  /** Every change of status has its cause, and a hash is stored by a submission and by nothing else. */
  lemma StatusHasCause(s: Ledger, env: Env, step: Step, key: Key)
    requires Inv(s, env) && key in s.rows
    ensures Caused(s, env, step, key, s.rows[key], Next(s, env, step, key))
  {
    match step
    case SubmitTransaction(_, _, _, _, _) => SubmitStepCause(s, env, step, key);
    case ExpirePending(_, _) => ExpireStepCause(s, env, step, key);
    case CancelRequest(_, _, _, _) => CancelStepCause(s, env, step, key);
    case DeleteAccount(_, _) => DeleteStepCause(s, env, step, key);
    case Claim(_, _) => ClaimStepCause(s, env, step, key);
    case Write(_, _) => WriteStepCause(s, env, step, key);
    case ConfirmExpired(_, _, _) => ConfirmStepCause(s, env, step, key);
    case _ => OtherStepCause(s, env, step, key);
  }

  /** So a step changes a status by a single change of the lifecycle. */
  lemma CauseFollows(s: Ledger, env: Env, step: Step, key: Key, a: Row, b: Row)
    requires Cause(s, env, step, key, a, b) && StatusOf(a) != StatusOf(b)
    ensures StatusOf(b) in Follow(StatusOf(a))
  {
  }

  lemma OtherStepCause(s: Ledger, env: Env, step: Step, key: Key)
    requires key in s.rows
    requires step.CreatePurchase? || step.CreateRequest? || step.Fetch? || step.Verify? || step.VerifyExpired? || step.Abandon?
    ensures Next(s, env, step, key) == s.rows[key]
  {
  }

  // ----- Whole runs -----

  /** A row is created by a step of its own, pending, with the parties and the amount the step names. */
  predicate Creates(step: Step, row: Row) {
    && StatusOf(row) == Pending && HashOf(row).None?
    && match row
       case PurchaseRow(p) =>
         && step.CreatePurchase? && step.id == p.id && step.eventId == p.eventId && step.userId == p.userId
         && step.amountLunas == p.amountLunas && step.hold == p.holdExpiresAt
       case RequestRow(r) =>
         && step.CreateRequest? && step.id == r.id && step.publicId == r.publicId && step.creatorId == r.creatorId
         && step.recipient == r.recipient && step.amountLunas == r.amountLunas && step.expiresAt == r.expiresAt
  }

  lemma NewRow(s: Ledger, env: Env, step: Step, key: Key)
    requires key !in s.rows && key in Apply(s, env, step).rows
    ensures Creates(step, Apply(s, env, step).rows[key])
  {
  }

  lemma NextIsAfter(s: Ledger, env: Env, step: Step, key: Key)
    requires Inv(s, env) && key in s.rows
    ensures key in Apply(s, env, step).rows && Apply(s, env, step).rows[key] == Next(s, env, step, key)
    ensures Evolves(s.rows[key], Next(s, env, step, key))
  {
    StepKeeps(s, env, step);
  }

  /** What the last step of a run has made of a row. */
  lemma LastStep(env: Env, steps: seq<Step>, key: Key)
    requires steps != [] && key in After(env, steps).rows
    ensures var front, step, row := steps[..|steps| - 1], steps[|steps| - 1], After(env, steps).rows[key];
            var s := After(env, front);
            if key in s.rows then
              row == Next(s, env, step, key) && Evolves(s.rows[key], row) && Caused(s, env, step, key, s.rows[key], row)
            else Creates(step, row)
  {
    var s, step := After(env, steps[..|steps| - 1]), steps[|steps| - 1];
    RunKeeps(env, steps[..|steps| - 1]);
    if key in s.rows {
      NextIsAfter(s, env, step, key);
      StatusHasCause(s, env, step, key);
    } else {
      NewRow(s, env, step, key);
    }
  }

  /** In every run a row has the parties and the amount of the step that created it. */
  lemma {:induction false} CreatedAs(env: Env, steps: seq<Step>, key: Key) returns (i: nat, row: Row)
    requires key in After(env, steps).rows
    ensures i < |steps| && Creates(steps[i], row) && Evolves(row, After(env, steps).rows[key])
  {
    var front := steps[..|steps| - 1];
    LastStep(env, steps, key);
    if key in After(env, front).rows {
      i, row := CreatedAs(env, front, key);
      EvolvesIsTransitive(row, After(env, front).rows[key], After(env, steps).rows[key]);
    } else {
      i, row := |front|, After(env, steps).rows[key];
      EvolvesIsReflexive(row);
    }
  }

  /** The step that gave a row its present status, and what the row was then. */
  ghost predicate Turns(env: Env, steps: seq<Step>, i: nat, key: Key, row: Row) {
    && i < |steps| && key in After(env, steps[..i]).rows
    && var s := After(env, steps[..i]); var b := Next(s, env, steps[i], key);
       StatusOf(b) == StatusOf(row) && Cause(s, env, steps[i], key, s.rows[key], b) && Evolves(b, row)
  }

  /** In every run, a row that is not pending was given its status by a step that could give it. */
  lemma {:induction false} SinceWhen(env: Env, steps: seq<Step>, key: Key) returns (i: nat)
    requires key in After(env, steps).rows && StatusOf(After(env, steps).rows[key]) != Pending
    ensures Turns(env, steps, i, key, After(env, steps).rows[key])
  {
    var front, step := steps[..|steps| - 1], steps[|steps| - 1];
    var s, row := After(env, front), After(env, steps).rows[key];
    LastStep(env, steps, key);
    if StatusOf(s.rows[key]) == StatusOf(row) {
      i := SinceWhen(env, front, key);
      assert front[..i] == steps[..i];
      EvolvesIsTransitive(Next(After(env, steps[..i]), env, steps[i], key), s.rows[key], row);
    } else {
      i := |front|;
      EvolvesIsReflexive(row);
    }
  }

  /** In every run, a stored hash was submitted, in some spelling: for a purchase by its buyer while the event was not
      cancelled, for a request by its payer before it expired. */
  lemma {:induction false} HashWasSubmitted(env: Env, steps: seq<Step>, key: Key) returns (i: nat)
    requires key in After(env, steps).rows && HashOf(After(env, steps).rows[key]).Some?
    ensures i < |steps| && key in After(env, steps[..i]).rows
    ensures var s := After(env, steps[..i]); Submits(s, env, steps[i], key, s.rows[key], Next(s, env, steps[i], key))
    ensures NormalHash(steps[i].raw) == HashOf(After(env, steps).rows[key])
    ensures match After(env, steps).rows[key]
            case PurchaseRow(p) => steps[i].actor == p.userId && !steps[i].eventCancelled
            case RequestRow(r) => Some(steps[i].actor) == r.payerId
  {
    var front := steps[..|steps| - 1];
    LastStep(env, steps, key);
    if HashOf(After(env, front).rows[key]) == HashOf(After(env, steps).rows[key]) {
      i := HashWasSubmitted(env, front, key);
      assert front[..i] == steps[..i];
    } else {
      i := |front|;
    }
  }

  /** In every run, an expired row was pending when its time to be paid was over, or unresolved at its deadline. */
  lemma ExpiredWasDue(env: Env, steps: seq<Step>, key: Key) returns (i: nat)
    requires key in After(env, steps).rows && StatusOf(After(env, steps).rows[key]) == Expired
    ensures i < |steps| && key in After(env, steps[..i]).rows
    ensures var s := After(env, steps[..i]);
            Lapses(steps[i], key, s.rows[key]) || RunsOut(s, env, steps[i], key, s.rows[key])
  {
    i := SinceWhen(env, steps, key);
  }

  /** In every run, a cancelled request was pending and cancelled by its creator, in time or with the account; a cancelled
      purchase was pending when its buyer recovered another one for the event. */
  lemma CancelledWasAsked(env: Env, steps: seq<Step>, key: Key) returns (i: nat)
    requires key in After(env, steps).rows && StatusOf(After(env, steps).rows[key]) == Cancelled
    ensures i < |steps| && key in After(env, steps[..i]).rows
    ensures var s := After(env, steps[..i]); Cancels(s, steps[i], key, s.rows[key])
  {
    i := SinceWhen(env, steps, key);
  }

  // ----- Where a worker's decision comes from -----

  /** The step in which a worker with a claimed row hears an answer, and what it decides. */
  predicate Hears(s: Ledger, env: Env, step: Step, w: Phase) {
    && w.Answered? && step.Verify? && step.worker in s.workers && s.workers[step.worker].Claimed?
    && s.workers[step.worker].key == w.key && s.workers[step.worker].claimed == w.claimed
    && w.decision == Decide(w.claimed, Heard(TransferOf(w.claimed, env.merchant), step.answer), s.workers[step.worker].stale)
  }

  /** A worker that a step has not left as it was has taken the step. */
  lemma OwnStep(s: Ledger, env: Env, step: Step, worker: string)
    requires worker in Apply(s, env, step).workers && Apply(s, env, step).workers[worker].Answered?
    requires !(worker in s.workers && s.workers[worker] == Apply(s, env, step).workers[worker])
    ensures (step.Verify? || step.Claim?) && step.worker == worker && worker in s.workers
  {
  }

  lemma VerifyAnswers(s: Ledger, env: Env, step: Step)
    requires step.Verify? && step.worker in Apply(s, env, step).workers && Apply(s, env, step).workers[step.worker].Answered?
    requires step.worker in s.workers && s.workers[step.worker] != Apply(s, env, step).workers[step.worker]
    ensures Hears(s, env, step, Apply(s, env, step).workers[step.worker])
  {
  }

  /** Claiming never decides: a row with a hash has a payer. */
  lemma ClaimDecidesNothing(s: Ledger, env: Env, step: Step)
    requires step.Claim? && step.worker in s.workers
    requires s.workers[step.worker].Fetched? ==> Sound(s.workers[step.worker].candidate)
    requires step.worker in Apply(s, env, step).workers && Apply(s, env, step).workers[step.worker].Answered?
    ensures s.workers[step.worker] == Apply(s, env, step).workers[step.worker]
  {
  }

  lemma NewlyAnswered(s: Ledger, env: Env, step: Step, worker: string)
    requires WorkersSound(s.workers, s.rows, env.merchant, s.confirmed)
    requires worker in Apply(s, env, step).workers && Apply(s, env, step).workers[worker].Answered?
    requires !(worker in s.workers && s.workers[worker] == Apply(s, env, step).workers[worker])
    ensures Hears(s, env, step, Apply(s, env, step).workers[worker])
  {
    OwnStep(s, env, step, worker);
    assert PhaseSound(s.workers[worker], s.rows, env.merchant, s.confirmed);
    if step.Claim? { ClaimDecidesNothing(s, env, step); } else { VerifyAnswers(s, env, step); }
  }

  lemma {:induction false} AnsweredWasAsked(env: Env, steps: seq<Step>, worker: string) returns (i: nat)
    requires worker in After(env, steps).workers && After(env, steps).workers[worker].Answered?
    ensures i < |steps| && Hears(After(env, steps[..i]), env, steps[i], After(env, steps).workers[worker])
  {
    var front, step := steps[..|steps| - 1], steps[|steps| - 1];
    var s := After(env, front);
    if worker in s.workers && s.workers[worker] == After(env, steps).workers[worker] {
      i := AnsweredWasAsked(env, front, worker);
      assert front[..i] == steps[..i];
    } else {
      i := |front|;
      RunKeeps(env, front);
      NewlyAnswered(s, env, step, worker);
    }
  }

  /** The answer a conclusion other than settling stands for. */
  function AnswerFor(status: Status): Answer { if status == Failed then IsInvalid else IsNotFinal }

  lemma DecidedBy(row: Row, merchant: string, answer: Answer, stale: bool, status: Status, category: Class)
    requires status == Failed || status == Verifying
    requires Decide(row, Heard(TransferOf(row, merchant), answer), stale) == Persist(status, category)
    ensures answer == AnswerFor(status) && TransferOf(row, merchant).Some?
  {
  }

  lemma PaysForStays(t: Transfer, a: Row, b: Row, merchant: string)
    requires Evolves(a, b) && PaysFor(t, a, merchant)
    ensures PaysFor(t, b, merchant)
  {
  }

  /** A worker's snapshot is an earlier state of the row it writes, and so of the row at the end of the run. */
  lemma WrittenFrom(env: Env, steps: seq<Step>, j: nat, key: Key, row: Row)
    requires Turns(env, steps, j, key, row) && steps[j].Write? && steps[j].worker in After(env, steps[..j]).workers
    requires var w := After(env, steps[..j]).workers[steps[j].worker]; w.Answered? && w.key == key
    ensures Evolves(After(env, steps[..j]).workers[steps[j].worker].claimed, row)
  {
    var s := After(env, steps[..j]);
    RunKeeps(env, steps[..j]);
    var w := s.workers[steps[j].worker];
    assert PhaseSound(w, s.rows, env.merchant, s.confirmed);
    NextIsAfter(s, env, steps[j], key);
    EvolvesIsTransitive(w.claimed, s.rows[key], Next(s, env, steps[j], key));
    EvolvesIsTransitive(w.claimed, Next(s, env, steps[j], key), row);
  }

  /** In every run, a row failed only because the verifier called a transfer that pays for it invalid, and is being
      verified only because the verifier called such a transfer not final. */
  lemma ConcludedWasAnswered(env: Env, steps: seq<Step>, key: Key) returns (i: nat, t: Transfer)
    requires key in After(env, steps).rows && StatusOf(After(env, steps).rows[key]) in {Failed, Verifying}
    ensures i < |steps| && steps[i].Verify? && AskedBy(After(env, steps[..i]), env, steps[i]) == Some(t)
    ensures steps[i].answer == AnswerFor(StatusOf(After(env, steps).rows[key]))
    ensures PaysFor(t, After(env, steps).rows[key], env.merchant)
  {
    var row := After(env, steps).rows[key];
    var j := SinceWhen(env, steps, key);
    var category :| Writes(After(env, steps[..j]), steps[j], key, Persist(StatusOf(row), category));
    var w := After(env, steps[..j]).workers[steps[j].worker];
    WrittenFrom(env, steps, j, key, row);
    i := AnsweredWasAsked(env, steps[..j], steps[j].worker);
    assert steps[..j][..i] == steps[..i] && steps[..j][i] == steps[i];
    t := AnswerMeant(After(env, steps[..i]), env, steps[i], w, row, category);
  }

  lemma AnswerMeant(s: Ledger, env: Env, step: Step, w: Phase, row: Row, category: Class) returns (t: Transfer)
    requires Hears(s, env, step, w) && w.decision == Persist(StatusOf(row), category) && StatusOf(row) in {Failed, Verifying}
    requires Evolves(w.claimed, row)
    ensures AskedBy(s, env, step) == Some(t) && step.answer == AnswerFor(StatusOf(row)) && PaysFor(t, row, env.merchant)
  {
    DecidedBy(w.claimed, env.merchant, step.answer, s.workers[step.worker].stale, StatusOf(row), category);
    t := TransferOf(w.claimed, env.merchant).value;
    OwnTransferPays(w.claimed, env.merchant);
    PaysForStays(t, w.claimed, row, env.merchant);
  }
}
