/** `POST /api/payments/verify`: check a gateway signature and record the payment. */
module VerifyRoute {
  import opened Base
  import opened Calendar
  import opened Tables
  import opened Records
  import opened Stores

  const MissingUri := "Missing MONGODB_URI_PG environment variable."
  const MissingSecret := "Missing RAZORPAY_KEY_SECRET environment variable."
  const MissingDetails := "Missing payment verification details."
  const BadSignature := "Payment verification failed. Invalid signature."
  const Recorded := "Payment successful and recorded!"

  /** The text the gateway signs: order id, a bar, payment id. */
  function SignedText(orderId: string, paymentId: string): (s: string)
    ensures |s| == |orderId| + 1 + |paymentId|
    ensures s[..|orderId|] == orderId && s[|orderId|] == '|' && s[|orderId| + 1..] == paymentId
  {
    orderId + "|" + paymentId
  }

  /** What the handler decides, before any write. The two environment checks throw inside
      the `try`, so their messages reach the client with status 500, as does the message of
      an error the storage calls throw. `hmac(key, text)` is the hex SHA-256 HMAC. On
      success the result is the document to insert. */
  function Decide(dbUri: string, secret: string, hmac: (string, string) -> string, storage: Storage,
                  orderId: string, paymentId: string, signature: string, amount: int, currency: string,
                  tenantId: Id, pgId: Id, roomId: Id, newId: Id, now: Date): (r: Reply<Payment>)
    ensures dbUri == "" ==> r == Err(500, MissingUri)
    ensures dbUri != "" && secret == "" ==> r == Err(500, MissingSecret)
    ensures r == Err(400, MissingDetails) <==>
      (dbUri != "" && secret != "" && (orderId == "" || paymentId == "" || signature == "" || tenantId == ""))
    ensures r == Err(400, BadSignature) <==>
      (dbUri != "" && secret != "" && orderId != "" && paymentId != "" && signature != "" && tenantId != ""
       && hmac(secret, SignedText(orderId, paymentId)) != signature)
    ensures (dbUri != "" && secret != "" && orderId != "" && paymentId != "" && signature != "" && tenantId != ""
             && hmac(secret, SignedText(orderId, paymentId)) == signature && storage.Throws?) ==>
      r == Err(500, CaughtMessage(storage.thrown))
    ensures r.Ok? <==>
      (dbUri != "" && secret != "" && orderId != "" && paymentId != "" && signature != "" && tenantId != ""
       && hmac(secret, SignedText(orderId, paymentId)) == signature && storage.Available?)
    ensures r.Ok? ==> hmac(secret, SignedText(r.body.orderId, r.body.gatewayPaymentId)) == signature
    ensures r.Ok? ==> (r.body.id == newId && r.body.tenantId == tenantId && r.body.pgId == pgId
                       && r.body.roomId == roomId && r.body.amount == amount && r.body.currency == currency
                       && r.body.orderId == orderId && r.body.gatewayPaymentId == paymentId
                       && r.body.paymentDate == now)
  {
    if dbUri == "" then Err(500, MissingUri)
    else if secret == "" then Err(500, MissingSecret)
    else if orderId == "" || paymentId == "" || signature == "" || tenantId == "" then Err(400, MissingDetails)
    else if hmac(secret, SignedText(orderId, paymentId)) != signature then Err(400, BadSignature)
    else if storage.Throws? then Err(500, CaughtMessage(storage.thrown))
    else Ok(Payment(newId, tenantId, pgId, roomId, amount, currency, orderId, paymentId, now))
  }

  /** The handler: the decision, then one `insertOne` on success. */
  method Post(db: PgDatabase, dbUri: string, secret: string, hmac: (string, string) -> string, storage: Storage,
              orderId: string, paymentId: string, signature: string, amount: int, currency: string,
              tenantId: Id, pgId: Id, roomId: Id, newId: Id, now: Date)
    returns (resp: Response)
    requires db.Valid() && KeyAbsent(db.payments, PaymentKey, newId)
    modifies db`payments
    ensures db.Valid()
    ensures var d := Decide(dbUri, secret, hmac, storage, orderId, paymentId, signature, amount, currency,
                            tenantId, pgId, roomId, newId, now);
      match d
      case Err(status, message) => resp == Response(status, message) && db.payments == old(db.payments)
      case Ok(p) => resp == Response(200, Recorded) && db.payments == old(db.payments) + [p]
  {
    var d := Decide(dbUri, secret, hmac, storage, orderId, paymentId, signature, amount, currency,
                    tenantId, pgId, roomId, newId, now);
    match d {
      case Err(status, message) =>
        resp := Response(status, message);
      case Ok(p) =>
        UniqueAfterAppend(db.payments, PaymentKey, p);
        db.payments := db.payments + [p];
        resp := Response(200, Recorded);
    }
  }

  /** A forged signature is never recorded, whatever the other fields hold. */
  lemma ForgedSignatureRefused(dbUri: string, secret: string, hmac: (string, string) -> string, storage: Storage,
                               orderId: string, paymentId: string, signature: string, amount: int, currency: string,
                               tenantId: Id, pgId: Id, roomId: Id, newId: Id, now: Date)
    requires hmac(secret, SignedText(orderId, paymentId)) != signature
    ensures Decide(dbUri, secret, hmac, storage, orderId, paymentId, signature, amount, currency,
                   tenantId, pgId, roomId, newId, now).Err?
  {
  }
}
