/** `POST /api/payments/dummy-verify`: record a payment without any gateway check. */
module DummyVerifyRoute {
  import opened Base
  import opened Calendar
  import opened Tables
  import opened Records
  import opened Stores

  const MissingDetails := "Missing details for dummy payment."
  const Recorded := "Dummy payment successful and recorded!"
  const OrderPrefix := "dummy_order_"
  const PayPrefix := "dummy_pay_"

  /** The stored `Number(amount)`. Amounts are integers in this model, so a truthy amount
      whose `Number` is NaN is stored as 0. */
  function StoredAmount(amount: JsonValue): (n: int)
    ensures ToNumber(amount).Finite? ==> n == ToNumber(amount).n
  {
    match ToNumber(amount)
    case Finite(n) => n
    case NaN => 0
  }

  /** What the handler decides. The 400 test is on the raw value's truthiness, so a truthy
      text such as "0" passes it and is stored as the number 0. `nowMillis` is
      `new Date().getTime()`, the same instant as `now`. */
  function Decide(amount: JsonValue, currency: string, tenantId: Id, pgId: Id, roomId: Id,
                  newId: Id, now: Date, nowMillis: int): (r: Reply<Payment>)
    ensures r.Err? <==> !Truthy(amount) || tenantId == "" || pgId == "" || roomId == ""
    ensures r.Err? ==> r.status == 400 && r.message == MissingDetails
    ensures r.Ok? ==> (r.body.id == newId && r.body.tenantId == tenantId && r.body.pgId == pgId
                       && r.body.roomId == roomId && r.body.paymentDate == now)
    ensures r.Ok? && ToNumber(amount).Finite? ==> r.body.amount == ToNumber(amount).n
    ensures r.Ok? ==> r.body.currency == (if currency == "" then "INR" else currency)
    ensures r.Ok? ==> r.body.orderId == OrderPrefix + IntText(nowMillis)
    ensures r.Ok? ==> r.body.gatewayPaymentId == PayPrefix + IntText(nowMillis)
  {
    if !Truthy(amount) || tenantId == "" || pgId == "" || roomId == "" then Err(400, MissingDetails)
    else Ok(Payment(newId, tenantId, pgId, roomId, StoredAmount(amount), if currency == "" then "INR" else currency,
                    OrderPrefix + IntText(nowMillis), PayPrefix + IntText(nowMillis), now))
  }

  /** A zero amount sent as text is not refused: the route records a payment of 0. */
  lemma ZeroTextIsRecorded(currency: string, tenantId: Id, pgId: Id, roomId: Id, newId: Id, now: Date, nowMillis: int)
    requires tenantId != "" && pgId != "" && roomId != ""
    ensures Decide(JStr("0"), currency, tenantId, pgId, roomId, newId, now, nowMillis).Ok?
    ensures Decide(JStr("0"), currency, tenantId, pgId, roomId, newId, now, nowMillis).body.amount == 0
  {
  }

  /** The handler: the decision, then one `insertOne` on success. */
  method Post(db: PgDatabase, amount: JsonValue, currency: string, tenantId: Id, pgId: Id, roomId: Id,
              newId: Id, now: Date, nowMillis: int)
    returns (resp: Response)
    requires db.Valid() && KeyAbsent(db.payments, PaymentKey, newId)
    modifies db`payments
    ensures db.Valid()
    ensures match Decide(amount, currency, tenantId, pgId, roomId, newId, now, nowMillis)
      case Err(status, message) => resp == Response(status, message) && db.payments == old(db.payments)
      case Ok(p) => resp == Response(200, Recorded) && db.payments == old(db.payments) + [p]
  {
    match Decide(amount, currency, tenantId, pgId, roomId, newId, now, nowMillis) {
      case Err(status, message) =>
        resp := Response(status, message);
      case Ok(p) =>
        UniqueAfterAppend(db.payments, PaymentKey, p);
        db.payments := db.payments + [p];
        resp := Response(200, Recorded);
    }
  }

  /** The dummy transaction ids carry the timestamp: reading the digits after the prefix
      gives back `getTime()`. */
  lemma IdsCarryTimestamp(amount: JsonValue, currency: string, tenantId: Id, pgId: Id, roomId: Id,
                          newId: Id, now: Date, nowMillis: nat)
    requires Truthy(amount) && tenantId != "" && pgId != "" && roomId != ""
    ensures var p := Decide(amount, currency, tenantId, pgId, roomId, newId, now, nowMillis).body;
      (AllDigits(p.orderId[|OrderPrefix|..]) && DigitsValue(p.orderId[|OrderPrefix|..]) == nowMillis
       && AllDigits(p.gatewayPaymentId[|PayPrefix|..]) && DigitsValue(p.gatewayPaymentId[|PayPrefix|..]) == nowMillis)
  {
    var p := Decide(amount, currency, tenantId, pgId, roomId, newId, now, nowMillis).body;
    assert p.orderId[|OrderPrefix|..] == NatText(nowMillis);
    assert p.gatewayPaymentId[|PayPrefix|..] == NatText(nowMillis);
    NatTextRoundTrip(nowMillis);
  }
}
