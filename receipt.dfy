/** `GET /api/payments/receipt?paymentId`: one payment with its tenant, PG and room. */
module ReceiptRoute {
  import opened Base
  import opened Calendar
  import opened Tables
  import opened Records

  const MissingPayment := "Payment ID is required."
  const NotFound := "Receipt not found."

  datatype Receipt = Receipt(id: Id, amount: int, paymentDate: Date, gatewayPaymentId: string,
                             tenantName: string, tenantMobile: string, pgName: string, pgAddress: string,
                             roomNumber: string)

  /** The `$project` of a payment joined with its tenant, PG and room. */
  function ReceiptOf(p: Payment, t: Tenant, pg: Pg, rm: Room): (r: Receipt)
    ensures r.id == p.id && r.amount == p.amount && r.paymentDate == p.paymentDate
    ensures r.gatewayPaymentId == p.gatewayPaymentId
    ensures r.tenantName == t.name && r.tenantMobile == t.mobile
    ensures r.pgName == pg.name && r.pgAddress == pg.address && r.roomNumber == rm.roomNumber
  {
    Receipt(p.id, p.amount, p.paymentDate, p.gatewayPaymentId, t.name, t.mobile, pg.name, pg.address, rm.roomNumber)
  }

  /** The payment's three joins, when all of them find a document. */
  predicate Joinable(tenants: seq<Tenant>, pgs: seq<Pg>, rooms: seq<Room>, p: Payment)
  {
    Lookup(tenants, TenantKey, p.tenantId).Some? && Lookup(pgs, PgKey, p.pgId).Some?
    && Lookup(rooms, RoomKey, p.roomId).Some?
  }

  /** 400 without an id; 404 when no payment has it or any of its joins finds nothing
      (each `$unwind` drops the document); otherwise the receipt. */
  function Get(payments: seq<Payment>, tenants: seq<Tenant>, pgs: seq<Pg>, rooms: seq<Room>, paymentId: Id)
    : (r: Reply<Receipt>)
    ensures r == Err(400, MissingPayment) <==> paymentId == ""
    ensures r == Err(404, NotFound) <==>
      (paymentId != "" && (KeyAbsent(payments, PaymentKey, paymentId)
                           || !Joinable(tenants, pgs, rooms, Lookup(payments, PaymentKey, paymentId).value)))
    ensures r.Ok? ==> exists p, t, pg, rm :: (p in payments && p.id == paymentId && t in tenants && t.id == p.tenantId
      && pg in pgs && pg.id == p.pgId && rm in rooms && rm.id == p.roomId && r.body == ReceiptOf(p, t, pg, rm))
  {
    if paymentId == "" then Err(400, MissingPayment)
    else match Lookup(payments, PaymentKey, paymentId)
      case None => Err(404, NotFound)
      case Some(p) =>
        match (Lookup(tenants, TenantKey, p.tenantId), Lookup(pgs, PgKey, p.pgId), Lookup(rooms, RoomKey, p.roomId))
        case (Some(t), Some(pg), Some(rm)) => Ok(ReceiptOf(p, t, pg, rm))
        case _ => Err(404, NotFound)
  }

  /** A payment just appended with a fresh id gets its receipt back, with the amount and
      gateway id that were recorded. */
  lemma RecordedPaymentHasReceipt(payments: seq<Payment>, tenants: seq<Tenant>, pgs: seq<Pg>, rooms: seq<Room>, p: Payment)
    requires p.id != "" && KeyAbsent(payments, PaymentKey, p.id) && Joinable(tenants, pgs, rooms, p)
    ensures Get(payments + [p], tenants, pgs, rooms, p.id).Ok?
    ensures Get(payments + [p], tenants, pgs, rooms, p.id).body.amount == p.amount
    ensures Get(payments + [p], tenants, pgs, rooms, p.id).body.gatewayPaymentId == p.gatewayPaymentId
    ensures Get(payments + [p], tenants, pgs, rooms, p.id).body.paymentDate == p.paymentDate
  {
    var s := payments + [p];
    assert PaymentKey(s[|payments|]) == p.id;
    assert forall j :: 0 <= j < |payments| ==> s[j] == payments[j];
    assert IndexOf(s, PaymentKey, p.id) == Some(|payments|);
  }
}
