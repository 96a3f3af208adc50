/** The billing arithmetic the payment-status roster and the tenant-details
    pipeline share: a tenant's payments, sums over a date window, the number of
    months billed, and the monthly status. */
module Billing {
  import opened Base
  import opened Calendar
  import opened Tables
  import opened Records

  function Amount(p: Payment): int { p.amount }

  /** The `$lookup` of `pg_payments` on `tenantId`: the tenant's payments in stored order. */
  function PaymentsOf(payments: seq<Payment>, tenantId: Id): (r: seq<Payment>)
    ensures forall p :: p in r <==> p in payments && p.tenantId == tenantId
    ensures |r| <= |payments|
  {
    Filter(payments, (p: Payment) => p.tenantId == tenantId)
  }

  /** The payments dated strictly before `next`. */
  function PaidBefore(ps: seq<Payment>, next: Date): (r: seq<Payment>)
    ensures forall p :: p in r <==> p in ps && Before(p.paymentDate, next)
  {
    Filter(ps, (p: Payment) => Before(p.paymentDate, next))
  }

  /** The payments dated in `[start, next)`, in stored order. */
  function PaidWithin(ps: seq<Payment>, start: Date, next: Date): (r: seq<Payment>)
    ensures forall p :: p in r <==> p in ps && InWindow(p.paymentDate, start, next)
  {
    Filter(ps, (p: Payment) => InWindow(p.paymentDate, start, next))
  }

  /** `$sum` of the `amount` field. */
  function Total(ps: seq<Payment>): int
  {
    Sum(ps, Amount)
  }

  predicate NonNegativeAmounts(ps: seq<Payment>)
  {
    forall p :: p in ps ==> p.amount >= 0
  }

  /** `{ $ifNull: ["$roomInfo.rent", 0] }`: the room's rent, or 0 when there is no room or no rent. */
  function RentOf(room: Option<Room>): (r: int)
    ensures room.Some? && room.value.rent.Some? ==> r == room.value.rent.value
    ensures room.None? || room.value.rent.None? ==> r == 0
  {
    match room
    case None => 0
    case Some(rm) => rm.rent.GetOr(0)
  }

  /** `$max: [1, (reference.getMonth() - $month(createdAt)) + 12 * (reference.getFullYear() - $year(createdAt)) + 1]`.
      `getMonth()` counts from 0 and `$month` from 1, so a tenant who joined k >= 1 months
      before the reference month is billed for k months, not k + 1. */
  function MonthsBilled(reference: Date, joined: Date): (m: int)
    ensures m >= 1
    ensures MonthIndex(reference) - MonthIndex(joined) >= 1 ==> m == MonthIndex(reference) - MonthIndex(joined)
    ensures MonthIndex(reference) - MonthIndex(joined) <= 1 ==> m == 1
  {
    Max(1, (MonthZero(reference) - joined.month) + 12 * (reference.year - joined.year) + 1)
  }

  const Paid := "Paid"
  const PartiallyPaid := "Partially Paid"
  const Unpaid := "Unpaid"

  /** The `$switch` on what was paid in the month against the rent. */
  function MonthStatus(paid: int, rent: int): (s: string)
    ensures s == Paid <==> paid >= rent
    ensures s == PartiallyPaid <==> 0 < paid < rent
    ensures s == Unpaid <==> paid <= 0 && paid < rent
  {
    if paid >= rent then Paid
    else if paid > 0 && paid < rent then PartiallyPaid
    else Unpaid
  }

  /** A tenant whose rent is 0 (no room, or a room without rent) always reads as Paid. */
  lemma NoRentIsPaid(ps: seq<Payment>, start: Date, next: Date)
    requires NonNegativeAmounts(ps)
    ensures MonthStatus(Total(PaidWithin(ps, start, next)), 0) == Paid
  {
    var w := PaidWithin(ps, start, next);
    assert forall p :: p in w ==> Amount(p) >= 0;
    SumNonNegative(w, Amount);
  }

  /** With non-negative amounts, what was paid within the month is at most what was paid
      before the month's end. */
  lemma PaidWithinAtMostPaidBefore(ps: seq<Payment>, start: Date, next: Date)
    requires NonNegativeAmounts(ps)
    ensures Total(PaidWithin(ps, start, next)) <= Total(PaidBefore(ps, next))
  {
    assert forall p :: p in ps ==> Amount(p) >= 0;
    SumFilterMonotone(ps, Amount, (p: Payment) => InWindow(p.paymentDate, start, next),
                      (p: Payment) => Before(p.paymentDate, next));
  }

  /** When no payment is dated on or after `next`, the payments before `next` are all of them. */
  lemma PaidBeforeIsAll(ps: seq<Payment>, next: Date)
    requires forall p :: p in ps ==> Before(p.paymentDate, next)
    ensures PaidBefore(ps, next) == ps
  {
    FilterAll(ps, (p: Payment) => Before(p.paymentDate, next));
  }
}
