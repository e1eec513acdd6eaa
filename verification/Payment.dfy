/** What event purchases and payment requests share: statuses, the reconciliation policy, the verifier's answers, and
    the reservation of transaction hashes. */
module Payment {
  import opened Rooms
  import opened Text

  /** Instants and durations in nanoseconds. */
  type Time = int

  const SECOND: Time := 1_000_000_000

  /** Purchases use Confirmed and never Paid, requests Paid and never Confirmed. */
  datatype Status = Pending | Submitted | Verifying | Confirmed | Paid | Failed | Expired | Cancelled

  predicate Unresolved(s: Status) { s == Submitted || s == Verifying }

  predicate Settled(s: Status) { s == Confirmed || s == Paid }

  predicate Resolved(s: Status) { Settled(s) || s == Failed || s == Expired }

  function StatusText(s: Status): string {
    match s
    case Pending => "pending"
    case Submitted => "submitted"
    case Verifying => "verifying"
    case Confirmed => "confirmed"
    case Paid => "paid"
    case Failed => "failed"
    case Expired => "expired"
    case Cancelled => "cancelled"
  }

  /** The lifecycle: which statuses a row can have at some later time. */
  predicate Later(a: Status, b: Status) {
    match a
    case Pending => true
    case Submitted => b != Pending && b != Cancelled
    case Verifying => b != Pending && b != Cancelled && b != Submitted
    case Expired => b == Expired || Settled(b)
    case _ => b == a
  }

  lemma LaterIsTransitive(a: Status, b: Status, c: Status)
    requires Later(a, b) && Later(b, c)
    ensures Later(a, c)
  {
  }

  /** Where a status can go in one change. */
  function Follow(s: Status): set<Status> {
    match s
    case Pending => {Submitted, Expired, Cancelled}
    case Submitted => {Verifying, Confirmed, Paid, Failed, Expired}
    case Verifying => {Confirmed, Paid, Failed, Expired}
    case Expired => {Confirmed, Paid}
    case _ => {}
  }

  function Rank(s: Status): nat {
    match s
    case Pending => 0
    case Submitted => 1
    case Verifying => 2
    case Expired => 3
    case _ => 4
  }

  /** The lifecycle is what any number of single changes reach; they never lead back. */
  lemma LaterIsReached(a: Status, b: Status)
    ensures Later(a, b) <==> a == b || exists c :: c in Follow(a) && Later(c, b)
    ensures b in Follow(a) ==> Rank(a) < Rank(b)
  {
    if Later(a, b) && a != b {
      if b in Follow(a) {
        assert Later(b, b);
      } else {
        assert Submitted in Follow(a) && Later(Submitted, b);
      }
    }
  }

  // ----- Policy -----

  datatype Policy = Policy(interval: Time, deadline: Time, batch: int)

  function Normalize(p: Policy): (r: Policy)
    ensures r.interval > 0 && r.deadline > 0 && r.batch > 0
    ensures p.interval > 0 ==> r.interval == p.interval
    ensures p.deadline > 0 ==> r.deadline == p.deadline
    ensures p.batch > 0 ==> r.batch == p.batch
  {
    Policy(if p.interval <= 0 then 60 * SECOND else p.interval,
           if p.deadline <= 0 then 3600 * SECOND else p.deadline,
           if p.batch <= 0 then 50 else p.batch)
  }

  /** A bound that is missing becomes a minute, an hour or fifty rows, whatever the others are. */
  lemma DefaultPolicy(p: Policy)
    ensures p.interval <= 0 ==> SECOND * 60 == Normalize(p).interval
    ensures p.deadline <= 0 ==> SECOND * 3600 == Normalize(p).deadline
    ensures p.batch <= 0 ==> 50 == Normalize(p).batch
    ensures Normalize(Normalize(p)) == Normalize(p)
  {
  }

  /** A duration as it reaches the database, in whole seconds. */
  function WholeSeconds(d: Time): (r: Time)
    requires d >= 0
    ensures d - SECOND < r <= d && r % SECOND == 0
  {
    d / SECOND * SECOND
  }

  /** How long a claim lasts: at least half a minute. */
  function ClaimDuration(d: Time): (r: Time)
    ensures 30 * SECOND <= r && (r <= d || r <= 30 * SECOND)
    ensures d - SECOND < r && r % SECOND == 0
  {
    WholeSeconds(if d < 30 * SECOND then 30 * SECOND else d)
  }

  /** The deadline of a row that has none of its own; an hour if the policy names none. */
  function FallbackDeadline(d: Time): (r: Time)
    ensures r % SECOND == 0 && (if d > 0 then d - SECOND < r <= d else r == 3600 * SECOND)
  {
    WholeSeconds(if d <= 0 then 3600 * SECOND else d)
  }

  /** An optional instant that is missing or has come. */
  predicate NoneOrPast(t: Option<Time>, now: Time) { t.None? || t.value <= now }

  function Coalesce(t: Option<Time>, other: Time): Time { if t.Some? then t.value else other }

  // ----- Verification -----

  /** What the verifier is asked about: a transfer of an amount to a recipient, sent by a payer's verified address. */
  datatype Transfer = Transfer(hash: string, recipient: string, amountLunas: int, payer: Uuid)

  /** An error, or an outcome; Unknown is an outcome the callers do not know. */
  datatype Answer = RpcError | IsConfirmed | IsInvalid | IsNotFinal | IsNotFound | Unknown

  datatype Class =
    | NoClass | ClassConfirmed | ClassPaid | ClassInvalid | ClassNotFinal | ClassNotFound | ClassTransient
    | ClassStaleExpired | ClassStateUpdateError | ClassClaimUnavailable

  datatype Report = Report(id: Uuid, before: Status, after: Status, category: Class)

  /** What one reconciliation meets: the clock when it claims, the verifier's answer, and the clock when it writes. */
  datatype Pass = Pass(now: Time, answer: Answer, later: Time)

  /** What a reconciler does with an answer. */
  datatype Decision = Persist(status: Status, category: Class) | Expire | Leave(category: Class)

  // ----- Results -----

  datatype Error =
    | NotFound | InvalidHash | EventCancelled | NotSubmittable | HashUsed | NotRecoverable | NotReserved
    | StateConflict | StateChanged | StateTerminal | InvalidState | NotCancellable

  datatype Result<+T> = Ok(value: T) | Err(error: Error)

  // ----- Names of statuses -----

  /** The status a stored or published name stands for. */
  function StatusNamed(text: string): Option<Status> {
    if text == "pending" then Some(Pending) else if text == "submitted" then Some(Submitted)
    else if text == "verifying" then Some(Verifying) else if text == "confirmed" then Some(Confirmed)
    else if text == "paid" then Some(Paid) else if text == "failed" then Some(Failed)
    else if text == "expired" then Some(Expired) else if text == "cancelled" then Some(Cancelled) else None
  }

  lemma StatusTextIs(s: Status, text: string)
    ensures StatusText(s) == text <==> StatusNamed(text) == Some(s)
  {
    assert "pending"[0] == 'p' && "paid"[0] == 'p' && |"pending"| == 7 && |"paid"| == 4;
  }

  // ----- Transaction hashes -----

  predicate IsHex(c: char) { IsDigit(c) || 'a' <= c <= 'f' || 'A' <= c <= 'F' }

  predicate IsHash(s: string) { |s| == 64 && forall i :: 0 <= i < 64 ==> IsHex(s[i]) }

  predicate StoredHash(s: string) { IsHash(s) && NoCapital(s) }

  /** The form in which a submitted hash is stored, if it is a hash at all. */
  function NormalHash(raw: string): (r: Option<string>)
    ensures r.Some? ==> StoredHash(r.value)
  {
    var normal := ToLower(TrimSpace(raw));
    if IsHash(normal) then Some(normal) else None
  }

  lemma HexDigits(c: char)
    ensures IsHex(c) <==> c in "0123456789abcdefABCDEF"
  {
  }

  /** A submission is accepted exactly when it is 64 hexadecimal digits between any white space; what is stored is the same
      hash without capital letters. */
  lemma NormalHashIff(raw: string)
    ensures NormalHash(raw).Some? <==> IsHash(TrimSpace(raw))
    ensures NormalHash(raw).Some? ==>
              var hash := NormalHash(raw).value;
              StoredHash(hash) && SameUpToCase(hash, TrimSpace(raw))
  {
    var t := TrimSpace(raw);
    forall i | 0 <= i < |t|
      ensures IsHex(ToLower(t)[i]) <==> IsHex(t[i])
      ensures !IsUpper(ToLower(t)[i])
    {
    }
  }

  lemma LowerCase(a: string, b: string)
    requires SameUpToCase(a, b)
    ensures ToLower(a) == ToLower(b)
  {
  }

  /** Spellings that differ in letter case and surrounding white space only are one submission. */
  lemma SpellingsAreOne(a: string, b: string, left: string, right: string)
    requires SameUpToCase(a, b) && AllSpace(left) && AllSpace(right)
    ensures NormalHash(left + b + right) == NormalHash(a)
  {
    TrimPads(left, b, right);
    TrimCase(a, b);
    LowerCase(TrimSpace(a), TrimSpace(b));
  }

  /** Stored hashes that are equal up to case are equal. */
  lemma StoredSpelling(a: string, b: string)
    requires NoCapital(a) && NoCapital(b) && ToLower(a) == ToLower(b)
    ensures a == b
  {
    forall i | 0 <= i < |a|
      ensures a[i] == b[i]
    {
      assert ToLower(a)[i] == Lower(a[i]) && ToLower(b)[i] == Lower(b[i]);
    }
  }

  /** A hash of white space only is no hash. */
  lemma BlankIff(hash: Option<string>)
    ensures Blank(hash) <==> hash.None? || AllSpace(hash.value)
  {
    if hash.Some? {
      var left, right := TrimIs(hash.value);
      if AllSpace(hash.value) {
        TrimPads(hash.value, "", "");
        assert hash.value + "" + "" == hash.value;
      }
    }
  }

  predicate Blank(hash: Option<string>) { hash.None? || TrimSpace(hash.value) == "" }

  lemma HashIsNotBlank(hash: string)
    requires IsHash(hash)
    ensures !Blank(Some(hash))
  {
    TrimmedIsFixed(hash);
  }

  /** Spelling does not matter: an accepted hash is stored in lower case without surrounding space, and submitting the
      stored form again gives the same form. */
  lemma NormalHashIsFixed(raw: string)
    requires NormalHash(raw).Some?
    ensures NormalHash(NormalHash(raw).value) == NormalHash(raw)
  {
    var normal := NormalHash(raw).value;
    TrimmedIsFixed(normal);
    assert ToLower(normal) == normal;
  }

  /** The owner of a reserved hash: a purchase or a request, by its id. */
  datatype Key = PurchaseKey(id: Uuid) | RequestKey(id: Uuid)

  /** consumed_nimiq_transactions: the hash is the primary key, across both tables. */
  type Consumed = map<string, Key>
}
