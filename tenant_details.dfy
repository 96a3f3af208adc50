/** `GET /api/payments/tenant-details?tenantId`: one tenant's rent, due amount and
    payment history, computed against the current date. */
module TenantDetailsRoute {
  import opened Base
  import opened Calendar
  import opened Tables
  import opened Records
  import opened Billing
  import PaymentStatusRoute

  const MissingTenant := "Tenant ID is required."
  const NoDetails := "Could not find details for this tenant."

  /** The projected document: `_id`, `rent`, `totalDueAmount` and `paymentHistory`. */
  datatype Details = Details(id: Id, rent: int, totalDueAmount: int, paymentHistory: seq<Payment>)

  /** The room `$lookup` with `preserveNullAndEmptyArrays`: the tenant's room, if its
      roomId is set and the room still exists. */
  function RoomOf(rooms: seq<Room>, t: Tenant): (r: Option<Room>)
    ensures r.Some? ==> t.roomId.Some? && r.value in rooms && r.value.id == t.roomId.value
    ensures t.roomId.Some? && (exists j :: 0 <= j < |rooms| && rooms[j].id == t.roomId.value) ==> r.Some?
  {
    if t.roomId.None? then None else Lookup(rooms, RoomKey, t.roomId.value)
  }

  /** The `$addFields` and `$project` stages for one tenant, as of `now`. */
  function DetailsFor(t: Tenant, rooms: seq<Room>, payments: seq<Payment>, now: Date): (d: Details)
    ensures d.id == t.id && d.rent == RentOf(RoomOf(rooms, t))
    ensures d.paymentHistory == PaymentsOf(payments, t.id)
    ensures d.totalDueAmount == d.rent * MonthsBilled(now, t.createdAt) - Total(d.paymentHistory)
  {
    var history := PaymentsOf(payments, t.id);
    var rent := RentOf(RoomOf(rooms, t));
    Details(t.id, rent, rent * MonthsBilled(now, t.createdAt) - Total(history), history)
  }

  /** The handler: 400 without a tenant id, 404 when no tenant has it, else that tenant's details. */
  function Get(tenants: seq<Tenant>, rooms: seq<Room>, payments: seq<Payment>, tenantId: Id, now: Date)
    : (r: Reply<Details>)
    ensures r == Err(400, MissingTenant) <==> tenantId == ""
    ensures r == Err(404, NoDetails) <==> tenantId != "" && KeyAbsent(tenants, TenantKey, tenantId)
    ensures r.Ok? ==> exists t :: t in tenants && t.id == tenantId && r.body == DetailsFor(t, rooms, payments, now)
  {
    if tenantId == "" then Err(400, MissingTenant)
    else match Lookup(tenants, TenantKey, tenantId)
      case None => Err(404, NoDetails)
      case Some(t) => Ok(DetailsFor(t, rooms, payments, now))
  }

  /** A tenant with no room, or whose room was deleted, is still reported: its rent is 0
      and its due amount is minus everything it has paid. */
  lemma NoRoomMeansNoRent(tenants: seq<Tenant>, rooms: seq<Room>, payments: seq<Payment>, t: Tenant, now: Date)
    requires UniqueKeys(tenants, TenantKey) && t in tenants && t.id != ""
    requires t.roomId.None? || KeyAbsent(rooms, RoomKey, t.roomId.value)
    ensures Get(tenants, rooms, payments, t.id, now).Ok?
    ensures Get(tenants, rooms, payments, t.id, now).body.rent == 0
    ensures Get(tenants, rooms, payments, t.id, now).body.totalDueAmount == -Total(PaymentsOf(payments, t.id))
  {
    var j :| 0 <= j < |tenants| && tenants[j] == t;
    LookupFindsOnly(tenants, TenantKey, j);
  }

  /** The detail view and the roster agree on a tenant's due amount when the roster is
      taken for the current month, the tenant's room exists, and none of its payments is
      dated after the current month. */
  lemma DetailsAgreeWithRoster(tenants: seq<Tenant>, rooms: seq<Room>, payments: seq<Payment>, t: Tenant, room: Room, now: Date)
    requires UniqueKeys(tenants, TenantKey) && t in tenants && t.id != ""
    requires t.roomId.Some? && Lookup(rooms, RoomKey, t.roomId.value) == Some(room)
    requires forall p :: p in payments && p.tenantId == t.id ==> Before(p.paymentDate, StartOfNextMonth(now))
    ensures Get(tenants, rooms, payments, t.id, now).Ok?
    ensures Get(tenants, rooms, payments, t.id, now).body.totalDueAmount
         == PaymentStatusRoute.RowFor(t, room, payments, now).totalDueAmount
  {
    var j :| 0 <= j < |tenants| && tenants[j] == t;
    LookupFindsOnly(tenants, TenantKey, j);
    PaidBeforeIsAll(PaymentsOf(payments, t.id), StartOfNextMonth(now));
  }
}
