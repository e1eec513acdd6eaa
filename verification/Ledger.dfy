/** The payment tables under any interleaving of users, reconciliation workers and recoveries. */
module Ledger {
  import opened NimiqTx
  import opened Payment
  import P = Purchases
  import R = Requests
  import opened RealtimeEvents
  import opened Rooms
  import opened Text

  // ----- Rows of either table -----

  datatype Row = PurchaseRow(p: P.Purchase) | RequestRow(r: R.Request)

  function KeyOf(row: Row): Key {
    match row
    case PurchaseRow(p) => PurchaseKey(p.id)
    case RequestRow(r) => RequestKey(r.id)
  }

  function StatusOf(row: Row): Status {
    match row
    case PurchaseRow(p) => p.status
    case RequestRow(r) => r.status
  }

  function HashOf(row: Row): Option<string> {
    match row
    case PurchaseRow(p) => p.hash
    case RequestRow(r) => r.hash
  }

  /** What the verifier is asked about a row; the merchant's address is configuration. */
  function TransferOf(row: Row, merchant: string): Option<Transfer> {
    match row
    case PurchaseRow(p) => P.TransferOf(p, merchant)
    case RequestRow(r) => R.TransferOf(r)
  }

  function RecoveryTransfer(row: Row, merchant: string, actor: Uuid): Option<Transfer> {
    match row
    case PurchaseRow(p) => P.TransferOf(p, merchant)
    case RequestRow(r) => R.RecoveryTransfer(r, actor)
  }

  function Announce(row: Row): seq<StatusChanged> {
    match row
    case PurchaseRow(p) => P.Announce(p)
    case RequestRow(r) => R.Announce(r)
  }

  function Submit(row: Row, actor: Uuid, hash: string, now: Time, deadline: Time, eventCancelled: bool, used: bool)
    : Result<Row>
  {
    match row
    case PurchaseRow(p) =>
      var s := P.Submit(p, actor, hash, now, deadline, eventCancelled, used);
      if s.Err? then Err(s.error) else Ok(PurchaseRow(s.value))
    case RequestRow(r) =>
      var s := R.Submit(r, actor, hash, now, deadline, used);
      if s.Err? then Err(s.error) else Ok(RequestRow(s.value))
  }

  function LazyExpire(row: Row, now: Time): Row {
    match row
    case PurchaseRow(p) => PurchaseRow(P.ExpireHold(p, now))
    case RequestRow(r) => RequestRow(R.ExpirePending(r, now))
  }

  function Cancel(row: Row, actor: Uuid, now: Time): Result<Row> {
    match row
    case PurchaseRow(_) => Err(NotFound)
    case RequestRow(r) =>
      var c := R.Cancel(r, actor, now);
      if c.Err? then Err(c.error) else Ok(RequestRow(c.value))
  }

  function Recover(row: Row, now: Time, reserved: bool, rival: bool): Result<Row> {
    match row
    case PurchaseRow(p) =>
      var c := P.Recover(p, now, reserved, rival);
      if c.Err? then Err(c.error) else Ok(PurchaseRow(c.value))
    case RequestRow(r) =>
      var c := R.Recover(r, now, reserved);
      if c.Err? then Err(c.error) else Ok(RequestRow(c.value))
  }

  function Release(row: Row, recovered: Row, now: Time): Row {
    if row.PurchaseRow? && recovered.PurchaseRow? then PurchaseRow(P.Release(row.p, recovered.p, now)) else row
  }

  function Withdraw(row: Row, user: Uuid, now: Time): Row {
    if row.RequestRow? then RequestRow(R.Withdraw(row.r, user, now)) else row
  }

  /** What a reconciler does with a candidate it has read: nothing, fail it unasked, or try to claim its row. */
  datatype Opening = Skip | FailUnasked | TryClaim(stale: bool)

  function Open(candidate: Row, now: Time, policy: Policy): Opening {
    match candidate
    case PurchaseRow(p) => if Unresolved(p.status) then TryClaim(P.Stale(p, now, policy)) else Skip
    case RequestRow(r) =>
      if r.hash.None? || !Unresolved(r.status) then Skip
      else if !R.HasPayer(r) then FailUnasked
      else TryClaim(R.Stale(r, now, policy))
  }

  function ClaimRow(row: Row, now: Time, policy: Policy, stale: bool): Option<Row> {
    match row
    case PurchaseRow(p) =>
      var c := P.Claim(p, now, policy.interval, policy.interval, stale);
      if c.None? then None else Some(PurchaseRow(c.value))
    case RequestRow(r) =>
      var c := R.Claim(r, now, policy.interval, policy.interval, stale);
      if c.None? then None else Some(RequestRow(c.value))
  }

  function Decide(row: Row, answer: Answer, stale: bool): Decision {
    match row
    case PurchaseRow(_) => P.Decide(answer, stale)
    case RequestRow(_) => R.Decide(answer, stale)
  }

  /** The row after acting on an answer, and what is published. */
  function Act(row: Row, claimed: Row, decision: Decision, now: Time, policy: Policy): (Row, seq<StatusChanged>) {
    match (row, claimed)
    case (PurchaseRow(p), PurchaseRow(c)) =>
      var o := P.Act(Some(p), c, c, decision, now, policy);
      if o.row.None? then (row, []) else (PurchaseRow(o.row.value), o.events)
    case (RequestRow(r), RequestRow(c)) =>
      var o := R.Act(Some(r), c, c, decision, now, policy);
      if o.row.None? then (row, []) else (RequestRow(o.row.value), o.events)
    case _ => (row, [])
  }

  // ----- The system -----

  /** A request handler or worker that holds a snapshot of a row. */
  datatype Phase =
    | Fetched(key: Key, candidate: Row)
    | Claimed(key: Key, claimed: Row, stale: bool)
    | Answered(key: Key, claimed: Row, decision: Decision)
    | Recovering(key: Key, snapshot: Row)

  datatype Published = Published(key: Key, event: StatusChanged)

  /** `confirmed` records the transfers the verifier has answered "confirmed" to. */
  datatype Ledger = Ledger(
    rows: map<Key, Row>, consumed: Consumed, workers: map<string, Phase>, confirmed: set<Transfer>, published: seq<Published>)

  datatype Env = Env(merchant: string, policy: Policy)

  /** Each database transaction is one step, together with the publication that follows it. `rival`, `eventCancelled`,
      and the statuses and answers a step carries, may be anything. */
  datatype Step =
    | CreatePurchase(id: Uuid, eventId: Uuid, userId: Uuid, amountLunas: int, hold: Option<Time>, now: Time)
    | CreateRequest(id: Uuid, publicId: Uuid, creatorId: Uuid, recipient: string, amountLunas: int, expiresAt: Time, now: Time)
    | SubmitTransaction(key: Key, actor: Uuid, raw: string, now: Time, eventCancelled: bool)
    | ExpirePending(key: Key, now: Time)
    | CancelRequest(key: Key, actor: Uuid, before: Status, now: Time)
    | DeleteAccount(user: Uuid, now: Time)
    | Fetch(worker: string, key: Key)
    | Claim(worker: string, now: Time)
    | Verify(worker: string, answer: Answer)
    | Write(worker: string, now: Time)
    | VerifyExpired(worker: string, actor: Uuid, answer: Answer)
    | ConfirmExpired(worker: string, now: Time, rival: bool)
    | Abandon(worker: string)

  function Tag(key: Key, events: seq<StatusChanged>): seq<Published> {
    seq(|events|, i requires 0 <= i < |events| => Published(key, events[i]))
  }

  function Put(s: Ledger, key: Key, row: Row, events: seq<StatusChanged>): Ledger {
    s.(rows := s.rows[key := row], published := s.published + Tag(key, events))
  }

  function Depart(s: Ledger, worker: string): Ledger { s.(workers := s.workers - {worker}) }

  function Create(s: Ledger, row: Row): Ledger {
    if KeyOf(row) in s.rows then s else s.(rows := s.rows[KeyOf(row) := row])
  }

  function DoSubmit(s: Ledger, env: Env, key: Key, actor: Uuid, hash: string, now: Time, eventCancelled: bool): Ledger {
    if key !in s.rows then s
    else
      match Submit(s.rows[key], actor, hash, now, now + env.policy.deadline, eventCancelled, Used(s.consumed, hash))
      case Err(_) => s
      case Ok(row) => Accept(s, key, row, hash)
  }

  /** A missing actor and a malformed hash are turned away before the database is reached. */
  function DoSubmitText(s: Ledger, env: Env, key: Key, actor: Uuid, raw: string, now: Time, eventCancelled: bool): Ledger {
    if actor == NIL || NormalHash(raw).None? then s
    else DoSubmit(s, env, key, actor, NormalHash(raw).value, now, eventCancelled)
  }

  /** An accepted submission, new or repeated. */
  function Accept(s: Ledger, key: Key, row: Row, hash: string): Ledger {
    Reserve(Put(s, key, row, if StatusOf(row) == Submitted then Announce(row) else []), hash, key)
  }

  /** The reservation of a hash; submitting it again does not move it. */
  function Reserve(s: Ledger, hash: string, key: Key): Ledger {
    if hash in s.consumed then s else s.(consumed := s.consumed[hash := key])
  }

  function DoCancel(s: Ledger, key: Key, actor: Uuid, before: Status, now: Time): Ledger {
    if key !in s.rows then s
    else
      var row := Cancel(s.rows[key], actor, now);
      if row.Err? then s else Put(s, key, row.value, if before != StatusOf(row.value) then Announce(row.value) else [])
  }

  /** The creator's pending requests are cancelled and nothing is published. */
  function DoDelete(s: Ledger, user: Uuid, now: Time): Ledger {
    s.(rows := map k | k in s.rows :: Withdraw(s.rows[k], user, now))
  }

  function DoClaim(s: Ledger, env: Env, worker: string, now: Time): Ledger {
    if worker !in s.workers || !s.workers[worker].Fetched? || s.workers[worker].key !in s.rows then s
    else
      var key, candidate := s.workers[worker].key, s.workers[worker].candidate;
      match Open(candidate, now, env.policy)
      case Skip => Depart(s, worker)
      case FailUnasked => s.(workers := s.workers[worker := Answered(key, candidate, Persist(Failed, ClassInvalid))])
      case TryClaim(stale) =>
        var claimed := ClaimRow(s.rows[key], now, env.policy, stale);
        if claimed.None? then Depart(s, worker)
        else s.(rows := s.rows[key := claimed.value], workers := s.workers[worker := Claimed(key, claimed.value, stale)])
  }

  /** A row without a hash is not asked about: the verifier says it is not found. */
  function Heard(transfer: Option<Transfer>, answer: Answer): Answer { if transfer.None? then IsNotFound else answer }

  function Remember(confirmed: set<Transfer>, transfer: Option<Transfer>, answer: Answer): set<Transfer> {
    if transfer.Some? && answer == IsConfirmed then confirmed + {transfer.value} else confirmed
  }

  function DoVerify(s: Ledger, env: Env, worker: string, answer: Answer): Ledger {
    if worker !in s.workers || !s.workers[worker].Claimed? then s
    else
      var w := s.workers[worker];
      var transfer := TransferOf(w.claimed, env.merchant);
      s.(confirmed := Remember(s.confirmed, transfer, answer),
         workers := s.workers[worker := Answered(w.key, w.claimed, Decide(w.claimed, Heard(transfer, answer), w.stale))])
  }

  function DoWrite(s: Ledger, env: Env, worker: string, now: Time): Ledger {
    if worker !in s.workers || !s.workers[worker].Answered? || s.workers[worker].key !in s.rows then s
    else
      var w := s.workers[worker];
      var done := Act(s.rows[w.key], w.claimed, w.decision, now, env.policy);
      Depart(Put(s, w.key, done.0, done.1), worker)
  }

  /** RecoverExpired up to the verifier's answer: only a confirmed expired row goes on. */
  function DoVerifyExpired(s: Ledger, env: Env, worker: string, actor: Uuid, answer: Answer): Ledger {
    if worker !in s.workers || !s.workers[worker].Fetched? then s
    else
      var w := s.workers[worker];
      if StatusOf(w.candidate) != Expired || Blank(HashOf(w.candidate)) then Depart(s, worker)
      else
        var transfer := RecoveryTransfer(w.candidate, env.merchant, actor);
        var heard := s.(confirmed := Remember(s.confirmed, transfer, answer));
        if Heard(transfer, answer) == IsConfirmed then heard.(workers := s.workers[worker := Recovering(w.key, w.candidate)])
        else Depart(heard, worker)
  }

  /** The row's hash is reserved for the row. */
  predicate OwnsHash(s: Ledger, key: Key) {
    key in s.rows && HashOf(s.rows[key]).Some? && Reserved(s.consumed, HashOf(s.rows[key]).value, key)
  }

  function DoConfirmExpired(s: Ledger, worker: string, now: Time, rival: bool): Ledger {
    if worker !in s.workers || !s.workers[worker].Recovering? || s.workers[worker].key !in s.rows then s
    else
      var w := s.workers[worker];
      var row := Recover(s.rows[w.key], now, OwnsHash(s, w.key), rival);
      if row.Err? then Depart(s, worker) else Recovered(s, worker, w, row.value, now)
  }

  /** The recovered row takes its place, the other pending purchases of its user and event are released, and the status
      is published if it is not the one the recovery started from. */
  function Recovered(s: Ledger, worker: string, w: Phase, row: Row, now: Time): Ledger
    requires w.Recovering? && w.key in s.rows
  {
    var released := if StatusOf(s.rows[w.key]) == Expired
                    then s.(rows := map k | k in s.rows :: Release(s.rows[k], row, now)) else s;
    Depart(Put(released, w.key, row, if StatusOf(row) != StatusOf(w.snapshot) then Announce(row) else []), worker)
  }

  function Apply(s: Ledger, env: Env, step: Step): Ledger {
    match step
    case CreatePurchase(id, eventId, userId, amount, hold, now) =>
      Create(s, PurchaseRow(P.NewPurchase(id, eventId, userId, amount, hold, now)))
    case CreateRequest(id, publicId, creatorId, recipient, amount, expiresAt, now) =>
      Create(s, RequestRow(R.NewRequest(id, publicId, creatorId, recipient, amount, None, expiresAt, now)))
    case SubmitTransaction(key, actor, raw, now, eventCancelled) => DoSubmitText(s, env, key, actor, raw, now, eventCancelled)
    case ExpirePending(key, now) => if key in s.rows then Put(s, key, LazyExpire(s.rows[key], now), []) else s
    case CancelRequest(key, actor, before, now) => DoCancel(s, key, actor, before, now)
    case DeleteAccount(user, now) => DoDelete(s, user, now)
    case Fetch(worker, key) => if key in s.rows then s.(workers := s.workers[worker := Fetched(key, s.rows[key])]) else s
    case Claim(worker, now) => DoClaim(s, env, worker, now)
    case Verify(worker, answer) => DoVerify(s, env, worker, answer)
    case Write(worker, now) => DoWrite(s, env, worker, now)
    case VerifyExpired(worker, actor, answer) => DoVerifyExpired(s, env, worker, actor, answer)
    case ConfirmExpired(worker, now, rival) => DoConfirmExpired(s, worker, now, rival)
    case Abandon(worker) => Depart(s, worker)
  }

  function After(env: Env, steps: seq<Step>): Ledger {
    if steps == [] then Ledger(map[], map[], map[], {}, [])
    else Apply(After(env, steps[..|steps| - 1]), env, steps[|steps| - 1])
  }

  // ----- How a row can change -----

  /** The parties and the amount never change, the status follows the lifecycle, a hash, its payer and its deadline are
      set once, by the step that submits a pending row, and a settled or failed row does not change at all. */
  predicate Evolves(a: Row, b: Row) {
    && Later(StatusOf(a), StatusOf(b))
    && (HashOf(a).Some? || StatusOf(a) != Pending ==> HashOf(b) == HashOf(a))
    && (Settled(StatusOf(a)) || StatusOf(a) == Failed ==> b == a)
    && (match (a, b)
        case (PurchaseRow(p), PurchaseRow(q)) =>
          && q.id == p.id && q.eventId == p.eventId && q.userId == p.userId && q.amountLunas == p.amountLunas
          && (p.hash.Some? ==> q.deadlineAt == p.deadlineAt)
        case (RequestRow(r), RequestRow(t)) =>
          && t.id == r.id && t.publicId == r.publicId && t.creatorId == r.creatorId && t.recipient == r.recipient
          && t.amountLunas == r.amountLunas
          && (r.hash.Some? ==> t.payerId == r.payerId && t.deadlineAt == r.deadlineAt)
        case _ => false)
  }

  lemma EvolvesIsTransitive(a: Row, b: Row, c: Row)
    requires Evolves(a, b) && Evolves(b, c)
    ensures Evolves(a, c)
  {
    LaterIsTransitive(StatusOf(a), StatusOf(b), StatusOf(c));
  }

  /** What holds of every row by itself: a purchase is never paid and a request never confirmed; a row that has been
      submitted has a valid hash, and a request's hash comes with a payer. */
  predicate Sound(row: Row) {
    && (row.PurchaseRow? ==> row.p.status != Paid)
    && (row.RequestRow? ==> row.r.status != Confirmed && (row.r.hash.Some? ==> R.HasPayer(row.r)))
    && (StatusOf(row) == Pending || StatusOf(row) == Cancelled ==> HashOf(row).None?)
    && (Unresolved(StatusOf(row)) || Settled(StatusOf(row)) || StatusOf(row) == Failed ==> HashOf(row).Some?)
    && (HashOf(row).Some? ==> StoredHash(HashOf(row).value))
  }

  lemma SubmitEvolves(row: Row, actor: Uuid, hash: string, now: Time, deadline: Time, eventCancelled: bool, used: bool)
    requires Sound(row) && actor != NIL && StoredHash(hash)
    ensures var s := Submit(row, actor, hash, now, deadline, eventCancelled, used);
            s.Ok? ==> Evolves(row, s.value) && Sound(s.value) && HashOf(s.value) == Some(hash)
                      && (s.value != row ==> !used && HashOf(row).None? && StatusOf(s.value) == Submitted)
  {
  }

  lemma ExpireEvolves(row: Row, now: Time)
    requires Sound(row)
    ensures var c := LazyExpire(row, now);
            && Evolves(row, c) && Sound(c) && HashOf(c) == HashOf(row)
            && (c == row || (StatusOf(row) == Pending && StatusOf(c) == Expired))
  {
  }

  lemma CancelEvolves(row: Row, actor: Uuid, now: Time)
    requires Sound(row)
    ensures var c := Cancel(row, actor, now);
            c.Ok? ==> Evolves(row, c.value) && Sound(c.value) && HashOf(c.value) == HashOf(row) && !Settled(StatusOf(c.value))
  {
  }

  lemma WithdrawEvolves(row: Row, user: Uuid, now: Time)
    requires Sound(row)
    ensures var c := Withdraw(row, user, now);
            && Evolves(row, c) && Sound(c) && HashOf(c) == HashOf(row)
            && (c == row || (StatusOf(row) == Pending && StatusOf(c) == Cancelled))
  {
  }

  lemma ClaimEvolves(row: Row, now: Time, policy: Policy, stale: bool)
    requires Sound(row)
    ensures var c := ClaimRow(row, now, policy, stale);
            c.Some? ==> Evolves(row, c.value) && Sound(c.value) && HashOf(c.value) == HashOf(row)
                        && Unresolved(StatusOf(row)) && StatusOf(c.value) == StatusOf(row)
  {
  }

  lemma RecoverEvolves(row: Row, now: Time, reserved: bool, rival: bool)
    requires Sound(row)
    ensures var c := Recover(row, now, reserved, rival);
            c.Ok? ==> Evolves(row, c.value) && Sound(c.value) && HashOf(c.value) == HashOf(row)
                      && Settled(StatusOf(c.value)) && (StatusOf(row) == Expired || c.value == row)
  {
  }

  lemma ReleaseEvolves(row: Row, recovered: Row, now: Time)
    requires Sound(row)
    ensures var c := Release(row, recovered, now);
            && Evolves(row, c) && Sound(c) && HashOf(c) == HashOf(row)
            && (c == row || (StatusOf(row) == Pending && StatusOf(c) == Cancelled))
  {
  }

  /** A decision a reconciler of this kind of row can make. */
  predicate Fits(row: Row, decision: Decision) {
    decision.Persist? ==>
      decision.status in {Verifying, Failed} || decision.status == if row.PurchaseRow? then Confirmed else Paid
  }

  lemma DecideFits(row: Row, answer: Answer, stale: bool)
    ensures var d := Decide(row, answer, stale); Fits(row, d) && (d.Persist? && Settled(d.status) ==> answer == IsConfirmed)
  {
  }

  predicate Settles(decision: Decision) { decision.Persist? && Settled(decision.status) }

  lemma PurchaseActEvolves(p: P.Purchase, c: P.Purchase, decision: Decision, now: Time, policy: Policy)
    requires Sound(PurchaseRow(p)) && Evolves(PurchaseRow(c), PurchaseRow(p)) && Fits(PurchaseRow(c), decision)
    ensures var o := P.Act(Some(p), c, c, decision, now, policy).row;
            && o.Some? && Evolves(PurchaseRow(p), PurchaseRow(o.value)) && Sound(PurchaseRow(o.value))
            && o.value.hash == p.hash && (Settled(o.value.status) ==> Settled(p.status) || Settles(decision))
  {
  }

  lemma RequestActEvolves(r: R.Request, c: R.Request, decision: Decision, now: Time, policy: Policy)
    requires Sound(RequestRow(r)) && Evolves(RequestRow(c), RequestRow(r)) && Fits(RequestRow(c), decision)
    ensures var o := R.Act(Some(r), c, c, decision, now, policy).row;
            && o.Some? && Evolves(RequestRow(r), RequestRow(o.value)) && Sound(RequestRow(o.value))
            && o.value.hash == r.hash && (Settled(o.value.status) ==> Settled(r.status) || Settles(decision))
  {
  }

  /** Acting on a snapshot that the row has evolved from: a row becomes settled only by a decision to settle it. */
  lemma {:induction false} ActEvolves(row: Row, claimed: Row, decision: Decision, now: Time, policy: Policy)
    requires Sound(row) && Evolves(claimed, row) && Fits(claimed, decision)
    ensures var c := Act(row, claimed, decision, now, policy).0;
            Evolves(row, c) && Sound(c) && HashOf(c) == HashOf(row)
            && (Settled(StatusOf(c)) ==> Settled(StatusOf(row)) || Settles(decision))
  {
    match (row, claimed)
    case (PurchaseRow(p), PurchaseRow(c)) => PurchaseActEvolves(p, c, decision, now, policy);
    case (RequestRow(r), RequestRow(c)) => RequestActEvolves(r, c, decision, now, policy);
    case _ =>
  }

  // ----- What every step keeps -----

  ghost predicate RowsSound(rows: map<Key, Row>) {
    forall k :: k in rows ==> KeyOf(rows[k]) == k && Sound(rows[k])
  }

  /** A hash is stored in a row exactly when the row owns its reservation. */
  ghost predicate HashesReserved(rows: map<Key, Row>, consumed: Consumed) {
    && (forall k :: k in rows && HashOf(rows[k]).Some? ==>
          HashOf(rows[k]).value in consumed && consumed[HashOf(rows[k]).value] == k)
    && (forall h :: h in consumed ==> consumed[h] in rows && HashOf(rows[consumed[h]]) == Some(h))
  }

  predicate Backed(row: Row, merchant: string, confirmed: set<Transfer>) {
    TransferOf(row, merchant).Some? && TransferOf(row, merchant).value in confirmed
  }

  ghost predicate SettledBacked(rows: map<Key, Row>, merchant: string, confirmed: set<Transfer>) {
    forall k :: k in rows && Settled(StatusOf(rows[k])) ==> Backed(rows[k], merchant, confirmed)
  }

  function SnapshotOf(w: Phase): Row {
    match w
    case Fetched(_, row) => row
    case Claimed(_, row, _) => row
    case Answered(_, row, _) => row
    case Recovering(_, row) => row
  }

  /** A worker's snapshot is an earlier state of its row, and a worker that is about to settle a row has heard
      "confirmed" for the row's own transfer. */
  predicate PhaseSound(w: Phase, rows: map<Key, Row>, merchant: string, confirmed: set<Transfer>) {
    && w.key in rows && Evolves(SnapshotOf(w), rows[w.key]) && Sound(SnapshotOf(w))
    && (w.Claimed? || w.Answered? ==> Unresolved(StatusOf(SnapshotOf(w))))
    && (w.Answered? ==> Fits(w.claimed, w.decision) && (Settles(w.decision) ==> Backed(w.claimed, merchant, confirmed)))
    && (w.Recovering? ==> StatusOf(w.snapshot) == Expired && Backed(w.snapshot, merchant, confirmed))
  }

  ghost predicate WorkersSound(workers: map<string, Phase>, rows: map<Key, Row>, merchant: string, confirmed: set<Transfer>) {
    forall w :: w in workers ==> PhaseSound(workers[w], rows, merchant, confirmed)
  }

  ghost predicate Inv(s: Ledger, env: Env) {
    && RowsSound(s.rows) && HashesReserved(s.rows, s.consumed)
    && SettledBacked(s.rows, env.merchant, s.confirmed)
    && WorkersSound(s.workers, s.rows, env.merchant, s.confirmed)
  }

  /** Every row is still there and has evolved. */
  ghost predicate Onward(before: map<Key, Row>, after: map<Key, Row>) {
    forall k :: k in before ==> k in after && Evolves(before[k], after[k])
  }

  lemma BackedStays(a: Row, b: Row, merchant: string, before: set<Transfer>, after: set<Transfer>)
    requires Backed(a, merchant, before) && Evolves(a, b) && before <= after
    ensures Backed(b, merchant, after)
  {
  }

  lemma PhaseStays(w: Phase, before: map<Key, Row>, after: map<Key, Row>, merchant: string,
                   heard: set<Transfer>, more: set<Transfer>)
    requires PhaseSound(w, before, merchant, heard) && Onward(before, after) && heard <= more
    ensures PhaseSound(w, after, merchant, more)
  {
    EvolvesIsTransitive(SnapshotOf(w), before[w.key], after[w.key]);
  }

  /** Workers that do not move keep what is known of them. */
  lemma WorkersStay(workers: map<string, Phase>, before: map<Key, Row>, after: map<Key, Row>, merchant: string,
                    heard: set<Transfer>, more: set<Transfer>)
    requires WorkersSound(workers, before, merchant, heard) && Onward(before, after) && heard <= more
    ensures WorkersSound(workers, after, merchant, more)
  {
    forall w | w in workers
      ensures PhaseSound(workers[w], after, merchant, more)
    {
      PhaseStays(workers[w], before, after, merchant, heard, more);
    }
  }

  lemma EvolvesIsReflexive(row: Row)
    ensures Evolves(row, row) && KeyOf(row) == KeyOf(row)
  {
  }

  lemma EvolvedKey(a: Row, b: Row)
    requires Evolves(a, b)
    ensures KeyOf(a) == KeyOf(b)
  {
  }

  /** A row moves on with its hash unchanged. */
  predicate Moves(a: Row, b: Row, merchant: string, confirmed: set<Transfer>) {
    Evolves(a, b) && Sound(b) && HashOf(b) == HashOf(a) && (Settled(StatusOf(b)) ==> Backed(b, merchant, confirmed))
  }

  ghost predicate AllMove(before: map<Key, Row>, after: map<Key, Row>, merchant: string, confirmed: set<Transfer>) {
    before.Keys == after.Keys && forall k :: k in before ==> Moves(before[k], after[k], merchant, confirmed)
  }

  lemma RowsMoveOn(before: map<Key, Row>, after: map<Key, Row>, merchant: string, confirmed: set<Transfer>)
    requires RowsSound(before) && AllMove(before, after, merchant, confirmed)
    ensures RowsSound(after) && SettledBacked(after, merchant, confirmed) && Onward(before, after)
  {
    forall k | k in after
      ensures KeyOf(after[k]) == k && Sound(after[k]) && Evolves(before[k], after[k])
      ensures Settled(StatusOf(after[k])) ==> Backed(after[k], merchant, confirmed)
    {
      assert Moves(before[k], after[k], merchant, confirmed);
      EvolvedKey(before[k], after[k]);
    }
  }

  lemma HashesStay(before: map<Key, Row>, after: map<Key, Row>, consumed: Consumed, merchant: string, confirmed: set<Transfer>)
    requires HashesReserved(before, consumed) && AllMove(before, after, merchant, confirmed)
    ensures HashesReserved(after, consumed)
  {
    forall k | k in after
      ensures HashOf(after[k]) == HashOf(before[k])
    {
      assert Moves(before[k], after[k], merchant, confirmed);
    }
  }

  lemma MoveKeeps(s: Ledger, env: Env, rows: map<Key, Row>)
    requires Inv(s, env) && AllMove(s.rows, rows, env.merchant, s.confirmed)
    ensures Inv(s.(rows := rows), env) && Onward(s.rows, rows)
  {
    RowsMoveOn(s.rows, rows, env.merchant, s.confirmed);
    HashesStay(s.rows, rows, s.consumed, env.merchant, s.confirmed);
    WorkersStay(s.workers, s.rows, rows, env.merchant, s.confirmed, s.confirmed);
  }

  lemma StayMoves(s: Ledger, env: Env, k: Key)
    requires Inv(s, env) && k in s.rows
    ensures Moves(s.rows[k], s.rows[k], env.merchant, s.confirmed)
  {
    EvolvesIsReflexive(s.rows[k]);
  }

  lemma PutMoves(s: Ledger, env: Env, key: Key, row: Row)
    requires Inv(s, env) && key in s.rows && Moves(s.rows[key], row, env.merchant, s.confirmed)
    ensures AllMove(s.rows, s.rows[key := row], env.merchant, s.confirmed)
  {
    forall k | k in s.rows
      ensures Moves(s.rows[k], s.rows[key := row][k], env.merchant, s.confirmed)
    {
      if k != key { StayMoves(s, env, k); }
    }
  }

  lemma PutKeeps(s: Ledger, env: Env, key: Key, row: Row, events: seq<StatusChanged>)
    requires Inv(s, env) && key in s.rows && Moves(s.rows[key], row, env.merchant, s.confirmed)
    ensures Inv(Put(s, key, row, events), env) && Onward(s.rows, Put(s, key, row, events).rows)
  {
    PutMoves(s, env, key, row);
    MoveKeeps(s, env, s.rows[key := row]);
  }

  // ----- Each step -----

  lemma CreateKeeps(s: Ledger, env: Env, row: Row)
    requires Inv(s, env) && Sound(row) && StatusOf(row) == Pending
    ensures Inv(Create(s, row), env) && Onward(s.rows, Create(s, row).rows)
  {
    var key := KeyOf(row);
    if key !in s.rows {
      var rows := s.rows[key := row];
      forall k | k in s.rows
        ensures Evolves(s.rows[k], rows[k])
      {
        EvolvesIsReflexive(s.rows[k]);
      }
      WorkersStay(s.workers, s.rows, rows, env.merchant, s.confirmed, s.confirmed);
      assert SettledBacked(rows, env.merchant, s.confirmed);
    }
  }

  lemma FreshHash(rows: map<Key, Row>, consumed: Consumed, key: Key, row: Row, hash: string)
    requires HashesReserved(rows, consumed) && key in rows && hash !in consumed
    requires HashOf(rows[key]).None? && HashOf(row) == Some(hash)
    ensures HashesReserved(rows[key := row], consumed[hash := key])
  {
  }

  lemma FreshRow(s: Ledger, env: Env, key: Key, row: Row)
    requires Inv(s, env) && key in s.rows && Evolves(s.rows[key], row) && Sound(row) && !Settled(StatusOf(row))
    ensures var rows := s.rows[key := row];
            RowsSound(rows) && SettledBacked(rows, env.merchant, s.confirmed) && Onward(s.rows, rows)
  {
    EvolvedKey(s.rows[key], row);
    forall k | k in s.rows
      ensures Evolves(s.rows[k], s.rows[key := row][k])
    {
      EvolvesIsReflexive(s.rows[k]);
    }
  }

  lemma ReserveKeeps(s: Ledger, env: Env, key: Key, row: Row, hash: string, events: seq<StatusChanged>)
    requires Inv(s, env) && key in s.rows && Evolves(s.rows[key], row) && Sound(row) && !Settled(StatusOf(row))
    requires hash !in s.consumed && HashOf(s.rows[key]).None? && HashOf(row) == Some(hash)
    ensures var s' := Reserve(Put(s, key, row, events), hash, key); Inv(s', env) && Onward(s.rows, s'.rows)
  {
    FreshRow(s, env, key, row);
    FreshHash(s.rows, s.consumed, key, row, hash);
    WorkersStay(s.workers, s.rows, s.rows[key := row], env.merchant, s.confirmed, s.confirmed);
  }

  lemma AcceptKeeps(s: Ledger, env: Env, key: Key, row: Row, hash: string)
    requires Inv(s, env) && key in s.rows && Evolves(s.rows[key], row) && Sound(row) && HashOf(row) == Some(hash)
    requires row == s.rows[key] || (hash !in s.consumed && HashOf(s.rows[key]).None? && StatusOf(row) == Submitted)
    ensures Inv(Accept(s, key, row, hash), env) && Onward(s.rows, Accept(s, key, row, hash).rows)
  {
    var events := if StatusOf(row) == Submitted then Announce(row) else [];
    if row == s.rows[key] {
      StayMoves(s, env, key);
      PutKeeps(s, env, key, row, events);
    } else {
      ReserveKeeps(s, env, key, row, hash, events);
    }
  }

  lemma SubmitAccepts(s: Ledger, env: Env, key: Key, actor: Uuid, hash: string, now: Time, eventCancelled: bool, row: Row)
    requires key in s.rows
    requires Submit(s.rows[key], actor, hash, now, now + env.policy.deadline, eventCancelled, Used(s.consumed, hash)) == Ok(row)
    ensures DoSubmit(s, env, key, actor, hash, now, eventCancelled) == Accept(s, key, row, hash)
  {
  }

  lemma SubmitKeeps(s: Ledger, env: Env, key: Key, actor: Uuid, hash: string, now: Time, eventCancelled: bool)
    requires Inv(s, env) && actor != NIL && StoredHash(hash)
    ensures var s' := DoSubmit(s, env, key, actor, hash, now, eventCancelled); Inv(s', env) && Onward(s.rows, s'.rows)
  {
    OnwardStays(s.rows);
    if key in s.rows {
      var row, used, deadline := s.rows[key], Used(s.consumed, hash), now + env.policy.deadline;
      SubmitEvolves(row, actor, hash, now, deadline, eventCancelled, used);
      match Submit(row, actor, hash, now, deadline, eventCancelled, used)
      case Err(_) =>
      case Ok(r) =>
        SubmitAccepts(s, env, key, actor, hash, now, eventCancelled, r);
        AcceptKeeps(s, env, key, r, hash);
    }
  }

  lemma OnwardStays(rows: map<Key, Row>)
    ensures Onward(rows, rows)
  {
    forall k | k in rows
      ensures Evolves(rows[k], rows[k])
    {
      EvolvesIsReflexive(rows[k]);
    }
  }

  /** A row that moves on and is settled only if it was already, or if it is backed. */
  lemma ChangeKeeps(s: Ledger, env: Env, key: Key, row: Row, events: seq<StatusChanged>)
    requires Inv(s, env) && key in s.rows && Evolves(s.rows[key], row) && Sound(row) && HashOf(row) == HashOf(s.rows[key])
    requires Settled(StatusOf(row)) ==> Settled(StatusOf(s.rows[key])) || Backed(row, env.merchant, s.confirmed)
    ensures Inv(Put(s, key, row, events), env) && Onward(s.rows, Put(s, key, row, events).rows)
  {
    PutKeeps(s, env, key, row, events);
  }

  lemma CancelKeeps(s: Ledger, env: Env, key: Key, actor: Uuid, before: Status, now: Time)
    requires Inv(s, env)
    ensures var s' := DoCancel(s, key, actor, before, now); Inv(s', env) && Onward(s.rows, s'.rows)
  {
    OnwardStays(s.rows);
    if key in s.rows {
      CancelEvolves(s.rows[key], actor, now);
      var c := Cancel(s.rows[key], actor, now);
      if c.Ok? {
        ChangeKeeps(s, env, key, c.value, if before != StatusOf(c.value) then Announce(c.value) else []);
      }
    }
  }

  lemma WorkerMoves(s: Ledger, env: Env, worker: string, w: Phase)
    requires Inv(s, env) && PhaseSound(w, s.rows, env.merchant, s.confirmed)
    ensures Inv(s.(workers := s.workers[worker := w]), env)
  {
    var workers := s.workers[worker := w];
    assert forall v :: v in workers ==> workers[v] == w || (v in s.workers && workers[v] == s.workers[v]);
  }

  lemma DepartKeeps(s: Ledger, env: Env, worker: string)
    requires Inv(s, env)
    ensures Inv(Depart(s, worker), env)
  {
  }

  lemma ClaimedIsSound(rows: map<Key, Row>, key: Key, row: Row, stale: bool, merchant: string, confirmed: set<Transfer>)
    requires key in rows && rows[key] == row && Sound(row) && Unresolved(StatusOf(row))
    ensures PhaseSound(Claimed(key, row, stale), rows, merchant, confirmed)
  {
    EvolvesIsReflexive(row);
  }

  lemma TakeKeeps(s: Ledger, env: Env, worker: string, key: Key, row: Row, stale: bool)
    requires Inv(s, env) && key in s.rows && Evolves(s.rows[key], row) && Sound(row) && HashOf(row) == HashOf(s.rows[key])
    requires Unresolved(StatusOf(row))
    ensures var s' := s.(rows := s.rows[key := row], workers := s.workers[worker := Claimed(key, row, stale)]);
            Inv(s', env) && Onward(s.rows, s'.rows)
  {
    var rows := s.rows[key := row];
    assert Moves(s.rows[key], row, env.merchant, s.confirmed);
    PutMoves(s, env, key, row);
    MoveKeeps(s, env, rows);
    ClaimedIsSound(rows, key, row, stale, env.merchant, s.confirmed);
    WorkerMoves(s.(rows := rows), env, worker, Claimed(key, row, stale));
  }

  lemma ClaimKeeps(s: Ledger, env: Env, worker: string, now: Time)
    requires Inv(s, env)
    ensures var s' := DoClaim(s, env, worker, now); Inv(s', env) && Onward(s.rows, s'.rows)
  {
    OnwardStays(s.rows);
    if worker in s.workers && s.workers[worker].Fetched? && s.workers[worker].key in s.rows {
      var key, candidate := s.workers[worker].key, s.workers[worker].candidate;
      assert PhaseSound(s.workers[worker], s.rows, env.merchant, s.confirmed);
      match Open(candidate, now, env.policy)
      case Skip => DepartKeeps(s, env, worker);
      case FailUnasked => WorkerMoves(s, env, worker, Answered(key, candidate, Persist(Failed, ClassInvalid)));
      case TryClaim(stale) =>
        var c := ClaimRow(s.rows[key], now, env.policy, stale);
        ClaimEvolves(s.rows[key], now, env.policy, stale);
        if c.None? {
          DepartKeeps(s, env, worker);
        } else {
          TakeKeeps(s, env, worker, key, c.value, stale);
        }
    }
  }

  lemma HearKeeps(s: Ledger, env: Env, transfer: Option<Transfer>, answer: Answer)
    requires Inv(s, env)
    ensures Inv(s.(confirmed := Remember(s.confirmed, transfer, answer)), env)
  {
    var more := Remember(s.confirmed, transfer, answer);
    OnwardStays(s.rows);
    WorkersStay(s.workers, s.rows, s.rows, env.merchant, s.confirmed, more);
  }

  lemma VerifyKeeps(s: Ledger, env: Env, worker: string, answer: Answer)
    requires Inv(s, env)
    ensures var s' := DoVerify(s, env, worker, answer); Inv(s', env) && s'.rows == s.rows
  {
    if worker in s.workers && s.workers[worker].Claimed? {
      var w := s.workers[worker];
      assert PhaseSound(w, s.rows, env.merchant, s.confirmed);
      var transfer := TransferOf(w.claimed, env.merchant);
      HearKeeps(s, env, transfer, answer);
      DecideFits(w.claimed, Heard(transfer, answer), w.stale);
      WorkerMoves(s.(confirmed := Remember(s.confirmed, transfer, answer)), env, worker,
                  Answered(w.key, w.claimed, Decide(w.claimed, Heard(transfer, answer), w.stale)));
    }
  }

  lemma WriteKeeps(s: Ledger, env: Env, worker: string, now: Time)
    requires Inv(s, env)
    ensures var s' := DoWrite(s, env, worker, now); Inv(s', env) && Onward(s.rows, s'.rows)
  {
    OnwardStays(s.rows);
    if worker in s.workers && s.workers[worker].Answered? && s.workers[worker].key in s.rows {
      var w := s.workers[worker];
      assert PhaseSound(w, s.rows, env.merchant, s.confirmed);
      var done := Act(s.rows[w.key], w.claimed, w.decision, now, env.policy);
      ActEvolves(s.rows[w.key], w.claimed, w.decision, now, env.policy);
      if Settles(w.decision) {
        EvolvesIsTransitive(w.claimed, s.rows[w.key], done.0);
        BackedStays(w.claimed, done.0, env.merchant, s.confirmed, s.confirmed);
      }
      ChangeKeeps(s, env, w.key, done.0, done.1);
      DepartKeeps(Put(s, w.key, done.0, done.1), env, worker);
    }
  }

  /** A confirmed recovery is about to settle a row whose own transfer was confirmed. */
  lemma RecoveringIsSound(w: Phase, rows: map<Key, Row>, merchant: string, confirmed: set<Transfer>, actor: Uuid, answer: Answer)
    requires w.Fetched? && PhaseSound(w, rows, merchant, confirmed) && StatusOf(w.candidate) == Expired
    requires Heard(RecoveryTransfer(w.candidate, merchant, actor), answer) == IsConfirmed
    ensures PhaseSound(Recovering(w.key, w.candidate), rows, merchant,
                       Remember(confirmed, RecoveryTransfer(w.candidate, merchant, actor), answer))
  {
  }

  lemma VerifyExpiredKeeps(s: Ledger, env: Env, worker: string, actor: Uuid, answer: Answer)
    requires Inv(s, env)
    ensures var s' := DoVerifyExpired(s, env, worker, actor, answer); Inv(s', env) && s'.rows == s.rows
  {
    if worker in s.workers && s.workers[worker].Fetched? {
      var w := s.workers[worker];
      if StatusOf(w.candidate) != Expired || Blank(HashOf(w.candidate)) {
        DepartKeeps(s, env, worker);
      } else {
        var transfer := RecoveryTransfer(w.candidate, env.merchant, actor);
        var heard := s.(confirmed := Remember(s.confirmed, transfer, answer));
        HearKeeps(s, env, transfer, answer);
        if Heard(transfer, answer) == IsConfirmed {
          RecoveringIsSound(w, s.rows, env.merchant, s.confirmed, actor, answer);
          WorkerMoves(heard, env, worker, Recovering(w.key, w.candidate));
          assert DoVerifyExpired(s, env, worker, actor, answer)
              == heard.(workers := s.workers[worker := Recovering(w.key, w.candidate)]);
        } else {
          DepartKeeps(heard, env, worker);
          assert DoVerifyExpired(s, env, worker, actor, answer) == Depart(heard, worker);
        }
      }
    }
  }

  lemma ReleaseKeeps(s: Ledger, env: Env, recovered: Row, now: Time)
    requires Inv(s, env)
    ensures var rows := map k | k in s.rows :: Release(s.rows[k], recovered, now);
            Inv(s.(rows := rows), env) && Onward(s.rows, rows)
  {
    var rows := map k | k in s.rows :: Release(s.rows[k], recovered, now);
    forall k | k in s.rows
      ensures Moves(s.rows[k], rows[k], env.merchant, s.confirmed)
    {
      ReleaseEvolves(s.rows[k], recovered, now);
      if rows[k] == s.rows[k] { StayMoves(s, env, k); }
    }
    MoveKeeps(s, env, rows);
  }

  lemma DeleteKeeps(s: Ledger, env: Env, user: Uuid, now: Time)
    requires Inv(s, env)
    ensures Inv(DoDelete(s, user, now), env) && Onward(s.rows, DoDelete(s, user, now).rows)
  {
    var rows := DoDelete(s, user, now).rows;
    forall k | k in s.rows
      ensures Moves(s.rows[k], rows[k], env.merchant, s.confirmed)
    {
      WithdrawEvolves(s.rows[k], user, now);
      if rows[k] == s.rows[k] { StayMoves(s, env, k); }
    }
    MoveKeeps(s, env, rows);
  }

  lemma OnwardIsTransitive(a: map<Key, Row>, b: map<Key, Row>, c: map<Key, Row>)
    requires Onward(a, b) && Onward(b, c)
    ensures Onward(a, c)
  {
    forall k | k in a
      ensures k in c && Evolves(a[k], c[k])
    {
      EvolvesIsTransitive(a[k], b[k], c[k]);
    }
  }

  /** The recovered row is not among the released ones. */
  lemma ReleaseSparesRecovered(row: Row, now: Time, reserved: bool, rival: bool)
    requires Recover(row, now, reserved, rival).Ok?
    ensures Release(row, Recover(row, now, reserved, rival).value, now) == row
  {
  }

  lemma RecoveredIsBacked(w: Phase, rows: map<Key, Row>, merchant: string, confirmed: set<Transfer>, row: Row)
    requires w.Recovering? && PhaseSound(w, rows, merchant, confirmed) && Evolves(rows[w.key], row)
    ensures Backed(row, merchant, confirmed)
  {
    EvolvesIsTransitive(w.snapshot, rows[w.key], row);
    BackedStays(w.snapshot, row, merchant, confirmed, confirmed);
  }

  lemma ConfirmExpiredKeeps(s: Ledger, env: Env, worker: string, now: Time, rival: bool)
    requires Inv(s, env)
    ensures var s' := DoConfirmExpired(s, worker, now, rival); Inv(s', env) && Onward(s.rows, s'.rows)
  {
    if worker in s.workers && s.workers[worker].Recovering? && s.workers[worker].key in s.rows {
      var w := s.workers[worker];
      var row, reserved := s.rows[w.key], OwnsHash(s, w.key);
      RecoverEvolves(row, now, reserved, rival);
      var r := Recover(row, now, reserved, rival);
      if r.Err? {
        OnwardStays(s.rows);
        DepartKeeps(s, env, worker);
      } else {
        RecoveredIsBacked(w, s.rows, env.merchant, s.confirmed, r.value);
        RecoveryKeeps(s, env, worker, w, now, reserved, rival);
      }
    } else {
      OnwardStays(s.rows);
    }
  }

  lemma RecoveryKeeps(s: Ledger, env: Env, worker: string, w: Phase, now: Time, reserved: bool, rival: bool)
    requires Inv(s, env) && w.Recovering? && w.key in s.rows && Recover(s.rows[w.key], now, reserved, rival).Ok?
    requires var row := Recover(s.rows[w.key], now, reserved, rival).value;
             && Evolves(s.rows[w.key], row) && Sound(row) && HashOf(row) == HashOf(s.rows[w.key])
             && Backed(row, env.merchant, s.confirmed)
    ensures var s' := Recovered(s, worker, w, Recover(s.rows[w.key], now, reserved, rival).value, now);
            Inv(s', env) && Onward(s.rows, s'.rows)
  {
    var row := Recover(s.rows[w.key], now, reserved, rival).value;
    ReleaseSparesRecovered(s.rows[w.key], now, reserved, rival);
    var released := if StatusOf(s.rows[w.key]) == Expired
                    then s.(rows := map k | k in s.rows :: Release(s.rows[k], row, now)) else s;
    if StatusOf(s.rows[w.key]) == Expired { ReleaseKeeps(s, env, row, now); } else { OnwardStays(s.rows); }
    assert released.rows[w.key] == s.rows[w.key];
    var events := if StatusOf(row) != StatusOf(w.snapshot) then Announce(row) else [];
    ChangeKeeps(released, env, w.key, row, events);
    OnwardIsTransitive(s.rows, released.rows, Put(released, w.key, row, events).rows);
    DepartKeeps(Put(released, w.key, row, events), env, worker);
  }

  lemma FetchKeeps(s: Ledger, env: Env, worker: string, key: Key)
    requires Inv(s, env) && key in s.rows
    ensures Inv(s.(workers := s.workers[worker := Fetched(key, s.rows[key])]), env)
  {
    EvolvesIsReflexive(s.rows[key]);
    WorkerMoves(s, env, worker, Fetched(key, s.rows[key]));
  }

  lemma SubmitTextKeeps(s: Ledger, env: Env, key: Key, actor: Uuid, raw: string, now: Time, eventCancelled: bool)
    requires Inv(s, env)
    ensures var s' := DoSubmitText(s, env, key, actor, raw, now, eventCancelled); Inv(s', env) && Onward(s.rows, s'.rows)
  {
    if actor != NIL && NormalHash(raw).Some? {
      SubmitKeeps(s, env, key, actor, NormalHash(raw).value, now, eventCancelled);
    } else {
      OnwardStays(s.rows);
    }
  }

  lemma ExpireKeeps(s: Ledger, env: Env, key: Key, now: Time)
    requires Inv(s, env)
    ensures var s' := if key in s.rows then Put(s, key, LazyExpire(s.rows[key], now), []) else s;
            Inv(s', env) && Onward(s.rows, s'.rows)
  {
    if key in s.rows {
      ExpireEvolves(s.rows[key], now);
      ChangeKeeps(s, env, key, LazyExpire(s.rows[key], now), []);
    } else {
      OnwardStays(s.rows);
    }
  }

  /** Steps that users take on the tables. */
  predicate OnTables(step: Step) {
    step.CreatePurchase? || step.CreateRequest? || step.SubmitTransaction? || step.ExpirePending? || step.CancelRequest?
    || step.DeleteAccount?
  }

  lemma {:induction false} TableStepKeeps(s: Ledger, env: Env, step: Step)
    requires Inv(s, env) && OnTables(step)
    ensures Inv(Apply(s, env, step), env) && Onward(s.rows, Apply(s, env, step).rows)
  {
    match step
    case CreatePurchase(id, eventId, userId, amount, hold, now) =>
      CreateKeeps(s, env, PurchaseRow(P.NewPurchase(id, eventId, userId, amount, hold, now)));
    case CreateRequest(id, publicId, creatorId, recipient, amount, expiresAt, now) =>
      CreateKeeps(s, env, RequestRow(R.NewRequest(id, publicId, creatorId, recipient, amount, None, expiresAt, now)));
    case SubmitTransaction(key, actor, raw, now, eventCancelled) =>
      SubmitTextKeeps(s, env, key, actor, raw, now, eventCancelled);
    case ExpirePending(key, now) => ExpireKeeps(s, env, key, now);
    case CancelRequest(key, actor, before, now) => CancelKeeps(s, env, key, actor, before, now);
    case DeleteAccount(user, now) => DeleteKeeps(s, env, user, now);
  }

  lemma {:induction false} WorkerStepKeeps(s: Ledger, env: Env, step: Step)
    requires Inv(s, env) && !OnTables(step)
    ensures Inv(Apply(s, env, step), env) && Onward(s.rows, Apply(s, env, step).rows)
  {
    match step
    case Fetch(worker, key) =>
      OnwardStays(s.rows);
      if key in s.rows { FetchKeeps(s, env, worker, key); }
    case Claim(worker, now) => ClaimKeeps(s, env, worker, now);
    case Verify(worker, answer) =>
      OnwardStays(s.rows);
      VerifyKeeps(s, env, worker, answer);
    case Write(worker, now) => WriteKeeps(s, env, worker, now);
    case VerifyExpired(worker, actor, answer) =>
      OnwardStays(s.rows);
      VerifyExpiredKeeps(s, env, worker, actor, answer);
    case ConfirmExpired(worker, now, rival) => ConfirmExpiredKeeps(s, env, worker, now, rival);
    case Abandon(worker) =>
      OnwardStays(s.rows);
      DepartKeeps(s, env, worker);
  }

  lemma {:induction false} StepKeeps(s: Ledger, env: Env, step: Step)
    requires Inv(s, env)
    ensures Inv(Apply(s, env, step), env) && Onward(s.rows, Apply(s, env, step).rows)
  {
    if OnTables(step) { TableStepKeeps(s, env, step); } else { WorkerStepKeeps(s, env, step); }
  }

  // ----- Whole runs -----

  lemma {:induction false} RunKeeps(env: Env, steps: seq<Step>)
    ensures Inv(After(env, steps), env)
  {
    if steps != [] {
      RunKeeps(env, steps[..|steps| - 1]);
      StepKeeps(After(env, steps[..|steps| - 1]), env, steps[|steps| - 1]);
    }
  }

  /** Whatever else happens in between, a row stays and evolves: its parties and amount never change, its status follows
      the lifecycle, its hash is set once, and once confirmed, paid or failed it never changes again. */
  lemma {:induction false} RowsEvolve(env: Env, steps: seq<Step>, more: seq<Step>, key: Key)
    requires key in After(env, steps).rows
    ensures var before, after := After(env, steps), After(env, steps + more);
            key in after.rows && Evolves(before.rows[key], after.rows[key])
    decreases more
  {
    if more == [] {
      assert steps + more == steps;
      EvolvesIsReflexive(After(env, steps).rows[key]);
    } else {
      var front := more[..|more| - 1];
      assert (steps + more)[..|steps + more| - 1] == steps + front;
      RowsEvolve(env, steps, front, key);
      RunKeeps(env, steps + front);
      StepKeeps(After(env, steps + front), env, more[|more| - 1]);
      EvolvesIsTransitive(After(env, steps).rows[key], After(env, steps + front).rows[key], After(env, steps + more).rows[key]);
    }
  }

  lemma FinalRowsNeverChange(env: Env, steps: seq<Step>, more: seq<Step>, key: Key)
    requires key in After(env, steps).rows
    requires var status := StatusOf(After(env, steps).rows[key]); Settled(status) || status == Failed
    ensures key in After(env, steps + more).rows && After(env, steps + more).rows[key] == After(env, steps).rows[key]
  {
    RowsEvolve(env, steps, more, key);
  }

  /** What a step asks the verifier. */
  function AskedBy(s: Ledger, env: Env, step: Step): Option<Transfer> {
    match step
    case Verify(worker, _) =>
      if worker in s.workers && s.workers[worker].Claimed? then TransferOf(s.workers[worker].claimed, env.merchant) else None
    case VerifyExpired(worker, actor, _) =>
      if worker in s.workers && s.workers[worker].Fetched?
      then RecoveryTransfer(s.workers[worker].candidate, env.merchant, actor) else None
    case _ => None
  }

  /** A step in which the verifier answers "confirmed" to a transfer. */
  predicate Confirms(s: Ledger, env: Env, step: Step, transfer: Transfer) {
    && (step.Verify? || step.VerifyExpired?) && step.answer == IsConfirmed
    && AskedBy(s, env, step) == Some(transfer)
  }

  lemma NewlyConfirmed(s: Ledger, env: Env, step: Step, transfer: Transfer)
    requires transfer in Apply(s, env, step).confirmed && transfer !in s.confirmed
    ensures Confirms(s, env, step, transfer)
  {
  }

  lemma {:induction false} ConfirmedWasAnswered(env: Env, steps: seq<Step>, transfer: Transfer) returns (i: nat)
    requires transfer in After(env, steps).confirmed
    ensures i < |steps| && Confirms(After(env, steps[..i]), env, steps[i], transfer)
  {
    var front := steps[..|steps| - 1];
    if transfer in After(env, front).confirmed {
      i := ConfirmedWasAnswered(env, front, transfer);
      assert front[..i] == steps[..i];
    } else {
      i := |front|;
      NewlyConfirmed(After(env, front), env, steps[i], transfer);
    }
  }

  /** The transfer that pays for a row: under the row's own hash, of its amount, from its user or payer, to the merchant or
      to the recipient the request names. */
  predicate PaysFor(t: Transfer, row: Row, merchant: string) {
    match row
    case PurchaseRow(p) =>
      p.hash == Some(t.hash) && t.recipient == merchant && t.amountLunas == p.amountLunas && t.payer == p.userId
    case RequestRow(r) =>
      r.hash == Some(t.hash) && t.recipient == r.recipient && t.amountLunas == r.amountLunas && r.payerId == Some(t.payer)
  }

  lemma OwnTransferPays(row: Row, merchant: string)
    ensures TransferOf(row, merchant).Some? ==> PaysFor(TransferOf(row, merchant).value, row, merchant)
    ensures row.PurchaseRow? || R.HasPayer(row.r) ==> (TransferOf(row, merchant).Some? <==> HashOf(row).Some?)
  {
  }

  /** In every run: a row is confirmed or paid only if at an earlier step the verifier answered "confirmed" to a transfer
      that pays for it. */
  lemma {:induction false} SettledOnlyIfConfirmed(env: Env, steps: seq<Step>, key: Key) returns (i: nat, t: Transfer)
    requires key in After(env, steps).rows && Settled(StatusOf(After(env, steps).rows[key]))
    ensures i < |steps| && Confirms(After(env, steps[..i]), env, steps[i], t)
    ensures PaysFor(t, After(env, steps).rows[key], env.merchant)
  {
    RunKeeps(env, steps);
    t := TransferOf(After(env, steps).rows[key], env.merchant).value;
    i := ConfirmedWasAnswered(env, steps, t);
    OwnTransferPays(After(env, steps).rows[key], env.merchant);
  }

  /** What a recovery asks about pays for the row; a request without a payer is asked about for the actor. */
  lemma RecoveryAsks(row: Row, merchant: string, actor: Uuid)
    ensures var t := RecoveryTransfer(row, merchant, actor);
            && (t.Some? <==> HashOf(row).Some?)
            && (t.Some? && (row.PurchaseRow? || row.r.payerId.Some?) ==> PaysFor(t.value, row, merchant))
            && (t.Some? && row.RequestRow? && row.r.payerId.None? ==>
                  PaysFor(t.value, RequestRow(row.r.(payerId := Some(actor))), merchant))
  {
  }

  /** In every run no two rows, of either table, hold the same transaction hash, in whatever spelling. */
  lemma {:induction false} HashesAreUnique(env: Env, steps: seq<Step>, j: Key, k: Key)
    requires var rows := After(env, steps).rows;
             && j in rows && k in rows && HashOf(rows[j]).Some? && HashOf(rows[k]).Some?
             && ToLower(HashOf(rows[j]).value) == ToLower(HashOf(rows[k]).value)
    ensures j == k
  {
    RunKeeps(env, steps);
    var rows := After(env, steps).rows;
    assert Sound(rows[j]) && Sound(rows[k]);
    StoredSpelling(HashOf(rows[j]).value, HashOf(rows[k]).value);
  }
}
