/** The ledger's steps of one worker with nothing in between are the reconciler and the recovery of the use cases. */
module Sequential {
  import opened Ledger
  import opened Payment
  import P = Purchases
  import R = Requests
  import opened RealtimeEvents
  import opened Rooms
  import opened Text

  /** What one call of the reconciler makes of a row, and what it publishes. */
  function Reconciled(row: Row, policy: Policy, pass: Pass): (Row, seq<StatusChanged>) {
    match row
    case PurchaseRow(p) =>
      var o := P.Reconcile(Some(p), p, policy, pass);
      (if o.row.Some? then PurchaseRow(o.row.value) else row, o.events)
    case RequestRow(r) =>
      var o := R.Reconcile(Some(r), r, policy, pass);
      (if o.row.Some? then RequestRow(o.row.value) else row, o.events)
  }

  /** The four steps of a worker that nobody disturbs. */
  function OnePass(s: Ledger, env: Env, worker: string, key: Key, pass: Pass): Ledger {
    var fetched := Apply(s, env, Fetch(worker, key));
    var claimed := Apply(fetched, env, Claim(worker, pass.now));
    var answered := Apply(claimed, env, Verify(worker, pass.answer));
    Apply(answered, env, Write(worker, pass.later))
  }

  /** The row's claim, if it can be claimed. */
  function Claimable(row: Row, policy: Policy, now: Time): Option<Row> {
    match Open(row, now, policy)
    case TryClaim(stale) => ClaimRow(row, now, policy, stale)
    case _ => None
  }

  function StaleAt(row: Row, policy: Policy, now: Time): bool {
    match Open(row, now, policy)
    case TryClaim(stale) => stale
    case _ => false
  }

  lemma PassWithoutClaim(row: Row, policy: Policy, pass: Pass)
    requires Sound(row) && HashOf(row).Some? && Claimable(row, policy, pass.now).None?
    ensures Reconciled(row, policy, pass) == (row, [])
  {
  }

  lemma PassWithClaim(row: Row, policy: Policy, pass: Pass)
    requires Sound(row) && HashOf(row).Some? && Claimable(row, policy, pass.now).Some?
    ensures var claimed := Claimable(row, policy, pass.now).value;
            && HashOf(claimed) == HashOf(row) && Sound(claimed)
            && Reconciled(row, policy, pass)
               == Act(claimed, claimed, Decide(claimed, pass.answer, StaleAt(row, policy, pass.now)), pass.later, policy)
  {
  }

  lemma ClaimFetched(s: Ledger, env: Env, worker: string, key: Key, row: Row, now: Time)
    requires worker in s.workers && s.workers[worker] == Fetched(key, row) && key in s.rows && s.rows[key] == row
    requires Sound(row) && HashOf(row).Some?
    ensures DoClaim(s, env, worker, now)
            == var claimed := Claimable(row, env.policy, now);
               if claimed.None? then Depart(s, worker)
               else s.(rows := s.rows[key := claimed.value],
                       workers := s.workers[worker := Claimed(key, claimed.value, StaleAt(row, env.policy, now))])
  {
  }

  lemma AskedAbout(row: Row, merchant: string)
    requires Sound(row) && HashOf(row).Some?
    ensures TransferOf(row, merchant).Some?
  {
  }

  /** Verifying and writing, once the row is claimed. */
  lemma FinishPass(s: Ledger, env: Env, worker: string, key: Key, claimed: Row, stale: bool, answer: Answer, later: Time)
    requires worker in s.workers && s.workers[worker] == Claimed(key, claimed, stale)
    requires key in s.rows && s.rows[key] == claimed && Sound(claimed) && HashOf(claimed).Some?
    ensures var done := Act(claimed, claimed, Decide(claimed, answer, stale), later, env.policy);
            var s' := DoWrite(DoVerify(s, env, worker, answer), env, worker, later);
            && s'.rows == s.rows[key := done.0] && s'.published == s.published + Tag(key, done.1)
            && s'.workers == s.workers - {worker} && s'.consumed == s.consumed
  {
    AskedAbout(claimed, env.merchant);
    var answered := DoVerify(s, env, worker, answer);
    assert answered.workers[worker] == Answered(key, claimed, Decide(claimed, answer, stale));
    assert answered.workers - {worker} == s.workers - {worker};
  }

  lemma Departed(s: Ledger, env: Env, worker: string, answer: Answer, later: Time)
    requires worker !in s.workers
    ensures DoWrite(DoVerify(s, env, worker, answer), env, worker, later) == s
  {
  }

  /** What the claim, the verification and the writing make of a row that has been fetched. */
  lemma RestOfPass(s: Ledger, env: Env, worker: string, key: Key, row: Row, pass: Pass)
    requires worker in s.workers && s.workers[worker] == Fetched(key, row) && key in s.rows && s.rows[key] == row
    requires Sound(row) && HashOf(row).Some?
    ensures var s' := DoWrite(DoVerify(DoClaim(s, env, worker, pass.now), env, worker, pass.answer), env, worker, pass.later);
            var done := Reconciled(row, env.policy, pass);
            && s'.rows == s.rows[key := done.0] && s'.published == s.published + Tag(key, done.1)
            && s'.workers == s.workers - {worker} && s'.consumed == s.consumed
  {
    ClaimFetched(s, env, worker, key, row, pass.now);
    var claimed, next := Claimable(row, env.policy, pass.now), DoClaim(s, env, worker, pass.now);
    if claimed.None? {
      PassWithoutClaim(row, env.policy, pass);
      Departed(next, env, worker, pass.answer, pass.later);
      assert s.rows[key := row] == s.rows && Tag(key, []) == [];
    } else {
      PassWithClaim(row, env.policy, pass);
      FinishPass(next, env, worker, key, claimed.value, StaleAt(row, env.policy, pass.now), pass.answer, pass.later);
      assert next.workers - {worker} == s.workers - {worker};
    }
  }

  /** For every row with a hash, every clock and every answer: the four steps leave the row that the reconciler leaves, and
      publish what it publishes. */
  lemma {:induction false} UndisturbedPass(s: Ledger, env: Env, worker: string, key: Key, pass: Pass)
    requires RowsSound(s.rows) && key in s.rows && HashOf(s.rows[key]).Some?
    ensures var s', done := OnePass(s, env, worker, key, pass), Reconciled(s.rows[key], env.policy, pass);
            && s'.rows == s.rows[key := done.0] && s'.published == s.published + Tag(key, done.1)
            && s'.workers == s.workers - {worker} && s'.consumed == s.consumed
  {
    var row := s.rows[key];
    assert Sound(row);
    var fetched := s.(workers := s.workers[worker := Fetched(key, row)]);
    FourSteps(s, env, worker, key, pass);
    RestOfPass(fetched, env, worker, key, row, pass);
    assert fetched.workers - {worker} == s.workers - {worker};
  }

  lemma FourSteps(s: Ledger, env: Env, worker: string, key: Key, pass: Pass)
    requires key in s.rows
    ensures var fetched := s.(workers := s.workers[worker := Fetched(key, s.rows[key])]);
            OnePass(s, env, worker, key, pass)
            == DoWrite(DoVerify(DoClaim(fetched, env, worker, pass.now), env, worker, pass.answer), env, worker, pass.later)
  {
    FetchIs(s, env, worker, key);
    var fetched := s.(workers := s.workers[worker := Fetched(key, s.rows[key])]);
    ClaimIs(fetched, env, worker, pass.now);
    var claimed := DoClaim(fetched, env, worker, pass.now);
    VerifyIs(claimed, env, worker, pass.answer);
    WriteIs(DoVerify(claimed, env, worker, pass.answer), env, worker, pass.later);
  }

  lemma FetchIs(s: Ledger, env: Env, worker: string, key: Key)
    requires key in s.rows
    ensures Apply(s, env, Fetch(worker, key)) == s.(workers := s.workers[worker := Fetched(key, s.rows[key])])
  {
  }

  lemma ClaimIs(s: Ledger, env: Env, worker: string, now: Time)
    ensures Apply(s, env, Claim(worker, now)) == DoClaim(s, env, worker, now)
  {
  }

  lemma VerifyIs(s: Ledger, env: Env, worker: string, answer: Answer)
    ensures Apply(s, env, Verify(worker, answer)) == DoVerify(s, env, worker, answer)
  {
  }

  lemma WriteIs(s: Ledger, env: Env, worker: string, now: Time)
    ensures Apply(s, env, Write(worker, now)) == DoWrite(s, env, worker, now)
  {
  }

  /** A row with a hash and without a payer, which no run has, would fail in the same way, unasked. */
  lemma UnaskedPass(s: Ledger, env: Env, worker: string, r: R.Request, pass: Pass)
    requires RequestKey(r.id) in s.rows && s.rows[RequestKey(r.id)] == RequestRow(r)
    requires r.hash.Some? && !R.HasPayer(r) && Unresolved(r.status) && pass.now == pass.later
    ensures var key := RequestKey(r.id);
            var s', done := OnePass(s, env, worker, key, pass), Reconciled(RequestRow(r), env.policy, pass);
            s'.rows == s.rows[key := done.0] && s'.published == s.published + Tag(key, done.1)
  {
    var key, row := RequestKey(r.id), RequestRow(r);
    var fetched := s.(workers := s.workers[worker := Fetched(key, row)]);
    FourSteps(s, env, worker, key, pass);
    var claimed := DoClaim(fetched, env, worker, pass.now);
    UnaskedClaim(fetched, env, worker, key, r, pass.now);
    assert DoVerify(claimed, env, worker, pass.answer) == claimed;
  }

  lemma UnaskedClaim(s: Ledger, env: Env, worker: string, key: Key, r: R.Request, now: Time)
    requires worker in s.workers && s.workers[worker] == Fetched(key, RequestRow(r)) && key in s.rows
    requires r.hash.Some? && !R.HasPayer(r) && Unresolved(r.status)
    ensures DoClaim(s, env, worker, now)
            == s.(workers := s.workers[worker := Answered(key, RequestRow(r), Persist(Failed, ClassInvalid))])
  {
  }

  // ----- Recovery -----

  /** The steps of a recovery that nobody disturbs. */
  function OneRecovery(s: Ledger, env: Env, worker: string, key: Key, actor: Uuid, answer: Answer, now: Time, rival: bool)
    : Ledger
  {
    var fetched := Apply(s, env, Fetch(worker, key));
    var heard := Apply(fetched, env, VerifyExpired(worker, actor, answer));
    Apply(heard, env, ConfirmExpired(worker, now, rival))
  }

  /** What a confirmed recovery makes of any row: the recovered one is replaced, the buyer's other pending purchases for
      the event are released, and nothing else changes. */
  function RowsRecovered(rows: map<Key, Row>, key: Key, row: Row, now: Time): map<Key, Row> {
    map k | k in rows :: if k == key then row else Release(rows[k], row, now)
  }

  lemma {:induction false} UndisturbedRecovery(s: Ledger, env: Env, worker: string, key: Key, actor: Uuid, answer: Answer,
                                               now: Time, rival: bool)
    requires RowsSound(s.rows) && key in s.rows
    ensures var s', row := OneRecovery(s, env, worker, key, actor, answer, now, rival), s.rows[key];
            var c := Recover(row, now, OwnsHash(s, key), rival);
            if StatusOf(row) == Expired && HashOf(row).Some? && answer == IsConfirmed && c.Ok? then
              s'.rows == RowsRecovered(s.rows, key, c.value, now) && s'.published == s.published + Tag(key, Announce(c.value))
            else s'.rows == s.rows && s'.published == s.published
  {
    var row := s.rows[key];
    assert Sound(row);
    var fetched := s.(workers := s.workers[worker := Fetched(key, row)]);
    ThreeSteps(s, env, worker, key, actor, answer, now, rival);
    RestOfRecovery(fetched, env, worker, key, row, actor, answer, now, rival);
    assert OwnsHash(fetched, key) == OwnsHash(s, key);
  }

  lemma ThreeSteps(s: Ledger, env: Env, worker: string, key: Key, actor: Uuid, answer: Answer, now: Time, rival: bool)
    requires key in s.rows
    ensures var fetched := s.(workers := s.workers[worker := Fetched(key, s.rows[key])]);
            OneRecovery(s, env, worker, key, actor, answer, now, rival)
            == DoConfirmExpired(DoVerifyExpired(fetched, env, worker, actor, answer), worker, now, rival)
  {
    FetchIs(s, env, worker, key);
    var fetched := s.(workers := s.workers[worker := Fetched(key, s.rows[key])]);
    VerifyExpiredIs(fetched, env, worker, actor, answer);
    ConfirmExpiredIs(DoVerifyExpired(fetched, env, worker, actor, answer), env, worker, now, rival);
  }

  lemma VerifyExpiredIs(s: Ledger, env: Env, worker: string, actor: Uuid, answer: Answer)
    ensures Apply(s, env, VerifyExpired(worker, actor, answer)) == DoVerifyExpired(s, env, worker, actor, answer)
  {
  }

  lemma ConfirmExpiredIs(s: Ledger, env: Env, worker: string, now: Time, rival: bool)
    ensures Apply(s, env, ConfirmExpired(worker, now, rival)) == DoConfirmExpired(s, worker, now, rival)
  {
  }

  lemma RestOfRecovery(s: Ledger, env: Env, worker: string, key: Key, row: Row, actor: Uuid, answer: Answer, now: Time,
                       rival: bool)
    requires worker in s.workers && s.workers[worker] == Fetched(key, row) && key in s.rows && s.rows[key] == row && Sound(row)
    ensures var s' := DoConfirmExpired(DoVerifyExpired(s, env, worker, actor, answer), worker, now, rival);
            var c := Recover(row, now, OwnsHash(s, key), rival);
            if StatusOf(row) == Expired && HashOf(row).Some? && answer == IsConfirmed && c.Ok? then
              s'.rows == RowsRecovered(s.rows, key, c.value, now) && s'.published == s.published + Tag(key, Announce(c.value))
            else s'.rows == s.rows && s'.published == s.published
  {
    if StatusOf(row) == Expired && HashOf(row).Some? && answer == IsConfirmed {
      HashIsNotBlank(HashOf(row).value);
      RecoveryHeard(s, env, worker, key, row, actor);
      var heard := DoVerifyExpired(s, env, worker, actor, answer);
      assert OwnsHash(heard, key) == OwnsHash(s, key);
      RecoveryDone(heard, env, worker, key, row, now, rival);
    } else {
      NoRecovery(s, env, worker, key, row, actor, answer, now, rival);
    }
  }

  lemma RecoveryHeard(s: Ledger, env: Env, worker: string, key: Key, row: Row, actor: Uuid)
    requires worker in s.workers && s.workers[worker] == Fetched(key, row) && StatusOf(row) == Expired && !Blank(HashOf(row))
    ensures var s' := DoVerifyExpired(s, env, worker, actor, IsConfirmed);
            && s'.rows == s.rows && s'.published == s.published && s'.consumed == s.consumed
            && s'.workers == s.workers[worker := Phase.Recovering(key, row)]
  {
  }

  lemma NoRecovery(s: Ledger, env: Env, worker: string, key: Key, row: Row, actor: Uuid, answer: Answer, now: Time, rival: bool)
    requires worker in s.workers && s.workers[worker] == Fetched(key, row)
    requires StatusOf(row) != Expired || HashOf(row).None? || answer != IsConfirmed
    ensures var s' := DoConfirmExpired(DoVerifyExpired(s, env, worker, actor, answer), worker, now, rival);
            s'.rows == s.rows && s'.published == s.published
  {
  }

  lemma RecoveryDone(s: Ledger, env: Env, worker: string, key: Key, row: Row, now: Time, rival: bool)
    requires worker in s.workers && s.workers[worker] == Phase.Recovering(key, row) && key in s.rows && s.rows[key] == row
    requires StatusOf(row) == Expired && Sound(row)
    ensures var s', c := DoConfirmExpired(s, worker, now, rival), Recover(row, now, OwnsHash(s, key), rival);
            if c.Ok? then
              s'.rows == RowsRecovered(s.rows, key, c.value, now) && s'.published == s.published + Tag(key, Announce(c.value))
            else s'.rows == s.rows && s'.published == s.published
  {
    var c := Recover(row, now, OwnsHash(s, key), rival);
    if c.Ok? {
      RecoverEvolves(row, now, OwnsHash(s, key), rival);
      var released := map k | k in s.rows :: Release(s.rows[k], c.value, now);
      assert released[key := c.value] == RowsRecovered(s.rows, key, c.value, now);
    }
  }
}
