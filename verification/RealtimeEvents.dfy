/** User-scoped realtime events: their type names, and the users they are routed to. */
module RealtimeEvents {
  import opened Rooms

  const WALLET_ACTIVITY_CHANGED := "wallet.activity_changed"

  datatype StatusChanged = StatusChanged(kind: string, resourceId: Uuid, status: string, userIds: seq<Uuid>)

  function PaymentRequestEventType(status: string): string {
    if status in ["submitted", "verifying", "paid", "failed", "expired", "cancelled"] then "payment_request." + status
    else ""
  }

  function EventPurchaseEventType(status: string): string {
    if status in ["submitted", "verifying", "confirmed", "failed", "expired", "cancelled"] then "event_purchase." + status
    else ""
  }

  predicate IsPaymentDomainType(kind: string) {
    kind in [
      "payment_request.submitted", "payment_request.verifying", "payment_request.paid", "payment_request.failed",
      "payment_request.expired", "payment_request.cancelled", "event_purchase.submitted", "event_purchase.verifying",
      "event_purchase.confirmed", "event_purchase.failed", "event_purchase.expired", "event_purchase.cancelled",
      WALLET_ACTIVITY_CHANGED
    ]
  }

  /** The type a status maps to is empty or one that the bridge delivers, and the status can be read off it. */
  lemma EventTypesAreDelivered(status: string)
    ensures var kind := PaymentRequestEventType(status); kind == "" || (IsPaymentDomainType(kind) && kind[16..] == status)
    ensures var kind := EventPurchaseEventType(status); kind == "" || (IsPaymentDomainType(kind) && kind[15..] == status)
  {
    assert ("payment_request." + status)[16..] == status && ("event_purchase." + status)[15..] == status;
    RequestTypes(status);
    PurchaseTypes(status);
  }

  lemma RequestTypes(status: string)
    ensures PaymentRequestEventType(status) == "" || IsPaymentDomainType(PaymentRequestEventType(status))
  {
    assert "payment_request." + "submitted" == "payment_request.submitted";
    assert "payment_request." + "verifying" == "payment_request.verifying";
    assert "payment_request." + "paid" == "payment_request.paid";
    assert "payment_request." + "failed" == "payment_request.failed";
    assert "payment_request." + "expired" == "payment_request.expired";
    assert "payment_request." + "cancelled" == "payment_request.cancelled";
  }

  lemma PurchaseTypes(status: string)
    ensures EventPurchaseEventType(status) == "" || IsPaymentDomainType(EventPurchaseEventType(status))
  {
    assert "event_purchase." + "submitted" == "event_purchase.submitted";
    assert "event_purchase." + "verifying" == "event_purchase.verifying";
    assert "event_purchase." + "confirmed" == "event_purchase.confirmed";
    assert "event_purchase." + "failed" == "event_purchase.failed";
    assert "event_purchase." + "expired" == "event_purchase.expired";
    assert "event_purchase." + "cancelled" == "event_purchase.cancelled";
  }

  /** The bridge delivers wallet activity, the types that statuses map to, and nothing else. */
  lemma DeliveredTypes(kind: string)
    ensures IsPaymentDomainType(kind)
            <==> kind == WALLET_ACTIVITY_CHANGED
                 || (kind != "" && exists s :: kind == PaymentRequestEventType(s) || kind == EventPurchaseEventType(s))
  {
    if IsPaymentDomainType(kind) && kind != WALLET_ACTIVITY_CHANGED { TypeOfStatus(kind); }
    forall s | kind == PaymentRequestEventType(s) || kind == EventPurchaseEventType(s)
      ensures kind == "" || IsPaymentDomainType(kind)
    {
      EventTypesAreDelivered(s);
    }
  }

  lemma TypeOfStatus(kind: string)
    requires IsPaymentDomainType(kind) && kind != WALLET_ACTIVITY_CHANGED
    ensures exists s :: kind == PaymentRequestEventType(s) || kind == EventPurchaseEventType(s)
  {
    if kind[0] == 'p' {
      RequestTypeOf(kind);
      assert kind == PaymentRequestEventType(kind[16..]);
    } else {
      PurchaseTypeOf(kind);
      assert kind == EventPurchaseEventType(kind[15..]);
    }
  }

  lemma RequestTypeOf(kind: string)
    requires kind in ["payment_request.submitted", "payment_request.verifying", "payment_request.paid",
                      "payment_request.failed", "payment_request.expired", "payment_request.cancelled"]
    ensures |kind| > 16 && kind == PaymentRequestEventType(kind[16..])
  {
    assert "payment_request.submitted"[16..] == "submitted" && "payment_request.verifying"[16..] == "verifying";
    assert "payment_request.paid"[16..] == "paid" && "payment_request.failed"[16..] == "failed";
    assert "payment_request.expired"[16..] == "expired" && "payment_request.cancelled"[16..] == "cancelled";
    assert kind[..16] == "payment_request." && kind == kind[..16] + kind[16..];
  }

  lemma PurchaseTypeOf(kind: string)
    requires kind in ["event_purchase.submitted", "event_purchase.verifying", "event_purchase.confirmed",
                      "event_purchase.failed", "event_purchase.expired", "event_purchase.cancelled"]
    ensures |kind| > 15 && kind == EventPurchaseEventType(kind[15..])
  {
    assert "event_purchase.submitted"[15..] == "submitted" && "event_purchase.verifying"[15..] == "verifying";
    assert "event_purchase.confirmed"[15..] == "confirmed" && "event_purchase.failed"[15..] == "failed";
    assert "event_purchase.expired"[15..] == "expired" && "event_purchase.cancelled"[15..] == "cancelled";
    assert kind[..15] == "event_purchase." && kind == kind[..15] + kind[15..];
  }

  /** The ids that are not nil, each once, in the order of their first occurrence. */
  function Unique(ids: seq<Uuid>): seq<Uuid> {
    if ids == [] then []
    else
      var front, id := Unique(ids[..|ids| - 1]), ids[|ids| - 1];
      if id == NIL || id in front then front else front + [id]
  }

  method UniqueUserIds(ids: seq<Uuid>) returns (out: seq<Uuid>)
    ensures out == Unique(ids)
  {
    var seen: set<Uuid> := {};
    out := [];
    for i := 0 to |ids|
      invariant out == Unique(ids[..i]) && forall u :: u in seen <==> u in out
    {
      assert ids[..i + 1][..i] == ids[..i];
      if ids[i] != NIL && ids[i] !in seen {
        seen := seen + {ids[i]};
        out := out + [ids[i]];
      }
    }
    assert ids[..|ids|] == ids;
  }

  ghost predicate Distinct(us: seq<Uuid>) { forall i, j :: 0 <= i < j < |us| ==> us[i] != us[j] }

  lemma {:induction false} UniqueMeans(ids: seq<Uuid>)
    ensures Distinct(Unique(ids))
    ensures forall u :: u in Unique(ids) <==> u in ids && u != NIL
  {
    if ids != [] {
      UniqueMeans(ids[..|ids| - 1]);
      assert ids == ids[..|ids| - 1] + [ids[|ids| - 1]];
    }
  }
}
