/** What the payment use cases publish, compared with what the rows went through. */
module Announcements {
  import opened Ledger
  import opened NimiqTx
  import opened Payment
  import P = Purchases
  import R = Requests
  import opened RealtimeEvents
  import opened Rooms
  import opened Text

  // ----- Histories -----

  /** The statuses in the status events published about a row, in order; wallet activity is left out. */
  function Told(published: seq<Published>, key: Key): seq<string> {
    if published == [] then []
    else
      var e := published[|published| - 1];
      Told(published[..|published| - 1], key)
      + if e.key == key && e.event.kind != WALLET_ACTIVITY_CHANGED then [e.event.status] else []
  }

  /** The row's status after each step of a run, from its submission on. */
  function Lived(env: Env, steps: seq<Step>, key: Key): seq<string> {
    if steps == [] then []
    else
      var rows := After(env, steps).rows;
      Lived(env, steps[..|steps| - 1], key)
      + if key in rows && HashOf(rows[key]).Some? then [StatusText(StatusOf(rows[key]))] else []
  }

  /** Without adjacent repetitions. */
  function Collapse<T(==)>(xs: seq<T>): seq<T> {
    if |xs| <= 1 then xs
    else
      var front, x := xs[..|xs| - 1], xs[|xs| - 1];
      if front[|front| - 1] == x then Collapse(front) else Collapse(front) + [x]
  }

  lemma {:induction false} CollapseSnoc<T>(xs: seq<T>, x: T)
    ensures Collapse(xs + [x])
            == if xs == [] then [x] else if xs[|xs| - 1] == x then Collapse(xs) else Collapse(xs) + [x]
  {
    var longer := xs + [x];
    assert |longer| == |xs| + 1 && longer[..|xs|] == xs && longer[|xs|] == x;
    if xs == [] { assert longer == [x]; }
  }

  // ----- One announcement -----

  /** The status events among the events published about one row. */
  lemma ToldAnnouncement(published: seq<Published>, row: Row, about: Key, key: Key)
    requires Sound(row)
    ensures Told(published + Tag(about, Announce(row)), key)
            == Told(published, key)
               + if key == about && StatusOf(row) != Pending then [StatusText(StatusOf(row))] else []
  {
    var events := Announce(row);
    AnnouncementIs(row);
    if |events| >= 1 {
      var one := published + [Published(about, events[0])];
      assert one[..|published|] == published;
      assert Tag(about, events[..1]) == [Published(about, events[0])];
      if |events| == 2 {
        var two := one + [Published(about, events[1])];
        assert two[..|one|] == one;
        assert published + Tag(about, events) == two;
      } else {
        assert published + Tag(about, events) == one;
      }
    } else {
      assert published + Tag(about, events) == published;
    }
  }

  /** Whom a row concerns: the buyer, or the creator of the request and whoever pays it. */
  predicate Party(row: Row, user: Uuid) {
    match row
    case PurchaseRow(p) => user == p.userId
    case RequestRow(r) => user == r.creatorId || r.payerId == Some(user)
  }

  /** An event that names the row, by a request's public id, its present status, and each of its parties once. */
  ghost predicate Names(e: StatusChanged, row: Row) {
    && e.resourceId == (match row case PurchaseRow(p) => p.id case RequestRow(r) => r.publicId)
    && StatusNamed(e.status) == Some(StatusOf(row))
    && Distinct(e.userIds)
    && forall u: Uuid :: u in e.userIds <==> u != NIL && Party(row, u)
  }

  lemma AnnouncementNames(row: Row, e: StatusChanged)
    requires e in Announce(row)
    ensures Names(e, row) && e.status == StatusText(StatusOf(row))
  {
    StatusTextIs(StatusOf(row), StatusText(StatusOf(row)));
    match row
    case PurchaseRow(p) => UniqueMeans([p.userId]);
    case RequestRow(r) => UniqueMeans([r.creatorId] + if r.payerId.Some? then [r.payerId.value] else []);
  }

  /** A publication about a row: nothing about a pending one; otherwise one event of the type for its table and status, and
      wallet activity besides exactly for a settled one; every event names the row. */
  lemma AnnouncementIs(row: Row)
    requires Sound(row)
    ensures var events := Announce(row);
            if StatusOf(row) == Pending then events == []
            else
              && 1 <= |events| <= 2
              && events[0].kind == (if row.PurchaseRow? then "event_purchase." else "payment_request.") + events[0].status
              && events[0].status == StatusText(StatusOf(row)) && events[0].kind != WALLET_ACTIVITY_CHANGED
              && (|events| == 2 ==> events[1].kind == WALLET_ACTIVITY_CHANGED && events[1].userIds == events[0].userIds)
              && (|events| == 2 <==> Settled(StatusOf(row)))
    ensures forall e :: e in Announce(row) ==> Names(e, row)
  {
    var text := StatusText(StatusOf(row));
    assert ("event_purchase." + text)[0] == 'e' && ("payment_request." + text)[0] == 'p' && WALLET_ACTIVITY_CHANGED[0] == 'w';
    forall e | e in Announce(row)
      ensures Names(e, row)
    {
      AnnouncementNames(row, e);
    }
  }

  // ----- One step -----

  /** A step that publishes either nothing or the present status of one row, and never leaves a change of status of a
      submitted row untold. */
  ghost predicate Tells(s: Ledger, after: Ledger, about: Key, told: bool) {
    && (told ==> about in after.rows)
    && after.published == s.published + (if told then Tag(about, Announce(after.rows[about])) else [])
    && forall k :: k in after.rows && HashOf(after.rows[k]).Some?
                   && !(k in s.rows && HashOf(s.rows[k]).Some? && StatusOf(s.rows[k]) == StatusOf(after.rows[k]))
         ==> k == about && told
  }

  /** What happened to one row needs telling. */
  predicate Notable(a: Option<Row>, b: Row) {
    HashOf(b).Some? && !(a.Some? && HashOf(a.value).Some? && StatusOf(a.value) == StatusOf(b))
  }

  lemma PutTells(s: Ledger, key: Key, row: Row, told: bool)
    requires key in s.rows && (Notable(Some(s.rows[key]), row) ==> told)
    ensures Tells(s, Put(s, key, row, if told then Announce(row) else []), key, told)
  {
    assert Tag(key, []) == [];
  }

  /** A step that leaves the submitted rows' statuses and the published events alone. */
  lemma QuietTells(s: Ledger, after: Ledger, key: Key)
    requires after.published == s.published
    requires forall k :: k in after.rows && HashOf(after.rows[k]).Some? ==>
               k in s.rows && HashOf(s.rows[k]).Some? && StatusOf(s.rows[k]) == StatusOf(after.rows[k])
    ensures Tells(s, after, key, false)
  {
  }

  lemma SubmitTells(row: Row, actor: Uuid, hash: string, now: Time, deadline: Time, eventCancelled: bool, used: bool)
    requires Sound(row) && actor != NIL && StoredHash(hash)
    ensures var r := Submit(row, actor, hash, now, deadline, eventCancelled, used);
            r.Ok? && Notable(Some(row), r.value) ==> StatusOf(r.value) == Submitted
  {
    SubmitEvolves(row, actor, hash, now, deadline, eventCancelled, used);
  }

  lemma CancelTells(row: Row, actor: Uuid, now: Time)
    requires Sound(row)
    ensures var c := Cancel(row, actor, now); c.Ok? ==> !Notable(Some(row), c.value)
  {
    CancelEvolves(row, actor, now);
  }

  lemma PurchaseActTells(p: P.Purchase, c: P.Purchase, decision: Decision, now: Time, policy: Policy)
    requires Sound(PurchaseRow(p)) && Evolves(PurchaseRow(c), PurchaseRow(p)) && Fits(PurchaseRow(c), decision)
    requires Unresolved(c.status)
    ensures var o := P.Act(Some(p), c, c, decision, now, policy);
            && o.row.Some? && (o.events == [] || o.events == P.Announce(o.row.value))
            && (o.row.value.status != p.status ==> o.events == P.Announce(o.row.value))
  {
  }

  lemma RequestActTells(r: R.Request, c: R.Request, decision: Decision, now: Time, policy: Policy)
    requires Sound(RequestRow(r)) && Evolves(RequestRow(c), RequestRow(r)) && Fits(RequestRow(c), decision)
    requires Unresolved(c.status)
    ensures var o := R.Act(Some(r), c, c, decision, now, policy);
            && o.row.Some? && (o.events == [] || o.events == R.Announce(o.row.value))
            && (o.row.value.status != r.status ==> o.events == R.Announce(o.row.value))
  {
  }

  /** Every change of status that a reconciler writes is published: a snapshot never has the status a row changes to. */
  lemma ActTells(row: Row, claimed: Row, decision: Decision, now: Time, policy: Policy)
    requires Sound(row) && Evolves(claimed, row) && Fits(claimed, decision) && Unresolved(StatusOf(claimed))
    ensures var done := Act(row, claimed, decision, now, policy);
            && (done.1 == [] || done.1 == Announce(done.0))
            && (StatusOf(done.0) != StatusOf(row) ==> done.1 == Announce(done.0))
  {
    match (row, claimed)
    case (PurchaseRow(p), PurchaseRow(c)) => PurchaseActTells(p, c, decision, now, policy);
    case (RequestRow(r), RequestRow(c)) => RequestActTells(r, c, decision, now, policy);
    case _ =>
  }

  lemma WriteTells(s: Ledger, env: Env, worker: string, now: Time) returns (about: Key, told: bool)
    requires Inv(s, env)
    ensures Tells(s, DoWrite(s, env, worker, now), about, told)
  {
    if worker in s.workers && s.workers[worker].Answered? && s.workers[worker].key in s.rows {
      var w := s.workers[worker];
      assert PhaseSound(w, s.rows, env.merchant, s.confirmed);
      var row, done := s.rows[w.key], Act(s.rows[w.key], w.claimed, w.decision, now, env.policy);
      ActTells(row, w.claimed, w.decision, now, env.policy);
      ActEvolves(row, w.claimed, w.decision, now, env.policy);
      AnnouncementIs(done.0);
      about, told := w.key, done.1 != [];
      PutTells(s, w.key, done.0, told);
    } else {
      about, told := PurchaseKey(NIL), false;
      QuietTells(s, DoWrite(s, env, worker, now), about);
    }
  }

  lemma ReleaseIsQuiet(s: Ledger, recovered: Row, now: Time)
    requires RowsSound(s.rows)
    ensures forall k :: k in s.rows ==> !Notable(Some(s.rows[k]), Release(s.rows[k], recovered, now))
  {
    forall k | k in s.rows
      ensures !Notable(Some(s.rows[k]), Release(s.rows[k], recovered, now))
    {
      ReleaseEvolves(s.rows[k], recovered, now);
    }
  }

  lemma RecoveredTells(s: Ledger, env: Env, worker: string, w: Phase, now: Time, reserved: bool, rival: bool)
    returns (told: bool)
    requires RowsSound(s.rows) && w.Recovering? && w.key in s.rows && Recover(s.rows[w.key], now, reserved, rival).Ok?
    requires StatusOf(w.snapshot) == Expired
    ensures Tells(s, Recovered(s, worker, w, Recover(s.rows[w.key], now, reserved, rival).value, now), w.key, told)
  {
    var row := Recover(s.rows[w.key], now, reserved, rival).value;
    RecoverEvolves(s.rows[w.key], now, reserved, rival);
    told := StatusOf(row) != StatusOf(w.snapshot);
    ReleaseIsQuiet(s, row, now);
    assert Tag(w.key, []) == [];
  }

  lemma ConfirmExpiredTells(s: Ledger, env: Env, worker: string, now: Time, rival: bool) returns (about: Key, told: bool)
    requires Inv(s, env)
    ensures Tells(s, DoConfirmExpired(s, worker, now, rival), about, told)
  {
    about, told := PurchaseKey(NIL), false;
    if worker in s.workers && s.workers[worker].Recovering? && s.workers[worker].key in s.rows {
      var w := s.workers[worker];
      assert PhaseSound(w, s.rows, env.merchant, s.confirmed);
      var r := Recover(s.rows[w.key], now, OwnsHash(s, w.key), rival);
      if r.Err? {
        QuietTells(s, Depart(s, worker), about);
      } else {
        about := w.key;
        told := RecoveredTells(s, env, worker, w, now, OwnsHash(s, w.key), rival);
      }
    } else {
      QuietTells(s, s, about);
    }
  }

  lemma ClaimTells(s: Ledger, env: Env, worker: string, now: Time, about: Key)
    requires RowsSound(s.rows)
    ensures Tells(s, DoClaim(s, env, worker, now), about, false)
  {
    var after := DoClaim(s, env, worker, now);
    if worker in s.workers && s.workers[worker].Fetched? && s.workers[worker].key in s.rows {
      var key, candidate := s.workers[worker].key, s.workers[worker].candidate;
      match Open(candidate, now, env.policy)
      case TryClaim(stale) => ClaimEvolves(s.rows[key], now, env.policy, stale);
      case _ =>
    }
    QuietTells(s, after, about);
  }

  lemma {:induction false} StepTells(s: Ledger, env: Env, step: Step) returns (about: Key, told: bool)
    requires Inv(s, env)
    ensures Tells(s, Apply(s, env, step), about, told)
  {
    about, told := PurchaseKey(NIL), false;
    match step
    case SubmitTransaction(key, actor, raw, now, eventCancelled) =>
      if actor != NIL && NormalHash(raw).Some? && key in s.rows {
        about, told := DoSubmitTells(s, env, key, actor, NormalHash(raw).value, now, eventCancelled);
      } else {
        QuietTells(s, s, about);
      }
    case ExpirePending(key, now) =>
      if key in s.rows {
        ExpireEvolves(s.rows[key], now);
        PutTells(s, key, LazyExpire(s.rows[key], now), false);
        about := key;
      } else {
        QuietTells(s, s, about);
      }
    case CancelRequest(key, actor, before, now) => about, told := DoCancelTells(s, env, key, actor, before, now);
    case DeleteAccount(user, now) => DeleteTells(s, user, now, about);
    case Claim(worker, now) => ClaimTells(s, env, worker, now, about);
    case Write(worker, now) => about, told := WriteTells(s, env, worker, now);
    case ConfirmExpired(worker, now, rival) => about, told := ConfirmExpiredTells(s, env, worker, now, rival);
    case _ => OtherTells(s, env, step, about);
  }

  /** Creating rows, reading them and asking the verifier publish nothing. */
  lemma OtherTells(s: Ledger, env: Env, step: Step, about: Key)
    requires step.CreatePurchase? || step.CreateRequest? || step.Fetch? || step.Verify? || step.VerifyExpired? || step.Abandon?
    ensures Tells(s, Apply(s, env, step), about, false)
  {
    QuietTells(s, Apply(s, env, step), about);
  }

  /** Deleting an account leaves no pending request of its user; it cancels them without telling anyone, and touches
      nothing else. */
  lemma DeleteTells(s: Ledger, user: Uuid, now: Time, about: Key)
    requires RowsSound(s.rows)
    ensures Tells(s, DoDelete(s, user, now), about, false)
    ensures var after := DoDelete(s, user, now);
            && after == s.(rows := after.rows) && after.rows.Keys == s.rows.Keys
            && forall k :: k in s.rows ==>
                 if s.rows[k].RequestRow? && s.rows[k].r.creatorId == user && StatusOf(s.rows[k]) == Pending
                 then StatusOf(after.rows[k]) == Cancelled else after.rows[k] == s.rows[k]
  {
    var after := DoDelete(s, user, now);
    forall k | k in s.rows
      ensures HashOf(after.rows[k]) == HashOf(s.rows[k])
              && (HashOf(s.rows[k]).Some? ==> StatusOf(after.rows[k]) == StatusOf(s.rows[k]))
    {
      WithdrawEvolves(s.rows[k], user, now);
    }
    QuietTells(s, after, about);
  }

  lemma DoSubmitTells(s: Ledger, env: Env, key: Key, actor: Uuid, hash: string, now: Time, eventCancelled: bool)
    returns (about: Key, told: bool)
    requires RowsSound(s.rows) && key in s.rows && actor != NIL && StoredHash(hash)
    ensures Tells(s, DoSubmit(s, env, key, actor, hash, now, eventCancelled), about, told)
  {
    about, told := key, false;
    var deadline := now + env.policy.deadline;
    SubmitTells(s.rows[key], actor, hash, now, deadline, eventCancelled, Used(s.consumed, hash));
    match Submit(s.rows[key], actor, hash, now, deadline, eventCancelled, Used(s.consumed, hash))
    case Err(_) => QuietTells(s, s, key);
    case Ok(row) =>
      SubmitAccepts(s, env, key, actor, hash, now, eventCancelled, row);
      told := StatusOf(row) == Submitted;
      PutTells(s, key, row, told);
  }

  lemma DoCancelTells(s: Ledger, env: Env, key: Key, actor: Uuid, before: Status, now: Time) returns (about: Key, told: bool)
    requires RowsSound(s.rows)
    ensures Tells(s, DoCancel(s, key, actor, before, now), about, told)
  {
    about, told := key, false;
    if key in s.rows && Cancel(s.rows[key], actor, now).Ok? {
      var row := Cancel(s.rows[key], actor, now).value;
      CancelTells(s.rows[key], actor, now);
      told := before != StatusOf(row);
      PutTells(s, key, row, told);
    } else {
      QuietTells(s, s, key);
    }
  }

  // ----- Whole runs -----

  function TextOf(row: Row): string { StatusText(StatusOf(row)) }

  function Last(xs: seq<string>): string
    requires xs != []
  {
    xs[|xs| - 1]
  }

  /** Nothing is told of a row before its submission; from then on the last thing told and the last thing lived are its
      present status, and without repetitions they are the same story. */
  ghost predicate Faithful(row: Option<Row>, told: seq<string>, lived: seq<string>) {
    if row.None? || StatusOf(row.value) == Pending then told == [] && lived == []
    else if HashOf(row.value).None? then lived == []
    else SameStory(told, lived, TextOf(row.value))
  }

  predicate SameStory(told: seq<string>, lived: seq<string>, text: string) {
    told != [] && lived != [] && Last(told) == text && Last(lived) == text && Collapse(told) == Collapse(lived)
  }

  lemma StoryGoesOn(told: seq<string>, lived: seq<string>, before: string, text: string, tell: bool)
    requires SameStory(told, lived, before) && (text != before ==> tell)
    ensures SameStory(told + if tell then [text] else [], lived + [text], text)
  {
    CollapseSnoc(told, text);
    CollapseSnoc(lived, text);
    assert told + [] == told;
  }

  lemma FaithfulRow(a: Option<Row>, b: Row, told: seq<string>, lived: seq<string>, tell: bool)
    requires Sound(b) && (a.Some? ==> Sound(a.value) && Evolves(a.value, b)) && Faithful(a, told, lived)
    requires (Notable(a, b) ==> tell) && (StatusOf(b) == Pending ==> !tell)
    ensures Faithful(Some(b), told + if tell then [TextOf(b)] else [], lived + if HashOf(b).Some? then [TextOf(b)] else [])
  {
    if HashOf(b).Some? {
      if a.Some? && HashOf(a.value).Some? {
        StoryGoesOn(told, lived, TextOf(a.value), TextOf(b), tell);
      } else {
        assert told == [] && lived == [];
      }
    }
  }

  function Find(rows: map<Key, Row>, key: Key): Option<Row> { if key in rows then Some(rows[key]) else None }

  /** How a step's announcement shows in what is told about one row. */
  lemma ToldNext(s: Ledger, after: Ledger, about: Key, told: bool, key: Key)
    requires RowsSound(after.rows) && Tells(s, after, about, told)
    ensures var tell := told && key == about && StatusOf(after.rows[about]) != Pending;
            Told(after.published, key) == Told(s.published, key) + if tell then [TextOf(after.rows[key])] else []
  {
    if told {
      ToldAnnouncement(s.published, after.rows[about], about, key);
    } else {
      assert s.published + [] == s.published;
    }
  }

  lemma FaithfulStep(s: Ledger, env: Env, after: Ledger, about: Key, told: bool, lived: seq<string>, key: Key)
    requires RowsSound(s.rows) && RowsSound(after.rows) && Onward(s.rows, after.rows) && Tells(s, after, about, told)
    requires Faithful(Find(s.rows, key), Told(s.published, key), lived)
    ensures Faithful(Find(after.rows, key), Told(after.published, key),
                     lived + if key in after.rows && HashOf(after.rows[key]).Some? then [TextOf(after.rows[key])] else [])
  {
    ToldNext(s, after, about, told, key);
    if key in after.rows {
      var tell := told && key == about && StatusOf(after.rows[about]) != Pending;
      assert Notable(Find(s.rows, key), after.rows[key]) ==> key == about && told;
      FaithfulRow(Find(s.rows, key), after.rows[key], Told(s.published, key), lived, tell);
    }
  }

  lemma {:induction false} RunIsFaithful(env: Env, steps: seq<Step>, key: Key)
    ensures Faithful(Find(After(env, steps).rows, key), Told(After(env, steps).published, key), Lived(env, steps, key))
  {
    if steps != [] {
      var front, step := steps[..|steps| - 1], steps[|steps| - 1];
      var s := After(env, front);
      RunIsFaithful(env, front, key);
      RunKeeps(env, front);
      StepKeeps(s, env, step);
      var about, told := StepTells(s, env, step);
      FaithfulStep(s, env, Apply(s, env, step), about, told, Lived(env, front, key), key);
    }
  }

  /** In every run, whatever is published names a row as it was at some time: its status then, and its parties. */
  lemma {:induction false} PublishedNames(env: Env, steps: seq<Step>, n: nat) returns (i: nat)
    requires n < |After(env, steps).published|
    ensures i <= |steps| && After(env, steps).published[n].key in After(env, steps[..i]).rows
    ensures var e := After(env, steps).published[n]; Names(e.event, After(env, steps[..i]).rows[e.key])
  {
    if steps != [] {
      var front := steps[..|steps| - 1];
      var s := After(env, front);
      RunKeeps(env, front);
      var about, told := StepTells(s, env, steps[|steps| - 1]);
      if n < |s.published| {
        i := PublishedNames(env, front, n);
        assert front[..i] == steps[..i];
      } else {
        i := |steps|;
        assert steps[..i] == steps;
        var row := After(env, steps).rows[about];
        AnnouncementNames(row, Announce(row)[n - |s.published|]);
      }
    }
  }

  /** In every run, the status events published about a submitted payment, without adjacent repetitions, are exactly the
      statuses it went through since its submission, in order: none is lost, none is made up, none is out of order. */
  lemma {:induction false} ToldAsLived(env: Env, steps: seq<Step>, key: Key)
    requires key in After(env, steps).rows && HashOf(After(env, steps).rows[key]).Some?
    ensures Collapse(Told(After(env, steps).published, key)) == Collapse(Lived(env, steps, key))
  {
    RunKeeps(env, steps);
    RunIsFaithful(env, steps, key);
  }
}
