/** `GET /api/payments/status?pgId&date`: the monthly collection roster of one PG. */
module PaymentStatusRoute {
  import opened Base
  import opened Calendar
  import opened Tables
  import opened Records
  import opened Billing

  const MissingFields := "PG ID and date are required."

  /** One projected roster row. `paymentId` is absent when nothing was paid in the month. */
  datatype StatusRow = StatusRow(tenantId: Id, name: string, mobile: string, roomNumber: string,
                                 totalDueAmount: int, currentMonthStatus: string, paymentId: Option<Id>)

  /** The `$match` stage: tenants of the PG that have a roomId and joined before the month's end. */
  predicate OnRoster(t: Tenant, pgId: Id, next: Date)
  {
    t.pgId == pgId && t.roomId.Some? && Before(t.createdAt, next)
  }

  /** The `$match`, then the room `$lookup` with `$unwind`: a tenant whose room does not
      exist is dropped. */
  function Roster(tenants: seq<Tenant>, rooms: seq<Room>, pgId: Id, next: Date): (r: seq<(Tenant, Room)>)
    ensures forall t, rm :: (t, rm) in r <==>
      t in tenants && OnRoster(t, pgId, next) && Lookup(rooms, RoomKey, t.roomId.value) == Some(rm)
  {
    FilterMap(tenants, (t: Tenant) =>
      if !OnRoster(t, pgId, next) then None
      else match Lookup(rooms, RoomKey, t.roomId.value)
        case None => None
        case Some(rm) => Some((t, rm)))
  }

  /** The `$first` of the in-month payment ids. */
  function FirstId(ps: seq<Payment>): (r: Option<Id>)
    ensures r.None? <==> ps == []
    ensures r.Some? ==> r.value == ps[0].id
  {
    if ps == [] then None else Some(ps[0].id)
  }

  /** The `$addFields` and `$project` stages for one tenant and its room, for the month of `selected`. */
  function RowFor(t: Tenant, room: Room, payments: seq<Payment>, selected: Date): (row: StatusRow)
    ensures row.tenantId == t.id && row.name == t.name && row.mobile == t.mobile && row.roomNumber == room.roomNumber
    ensures row.totalDueAmount ==
      RentOf(Some(room)) * MonthsBilled(selected, t.createdAt)
        - Total(PaidBefore(PaymentsOf(payments, t.id), StartOfNextMonth(selected)))
    ensures row.currentMonthStatus ==
      MonthStatus(Total(PaidWithin(PaymentsOf(payments, t.id), StartOfMonth(selected), StartOfNextMonth(selected))),
                  RentOf(Some(room)))
    ensures row.paymentId.Some? <==>
      exists p :: p in payments && p.tenantId == t.id && p.paymentDate.year == selected.year && p.paymentDate.month == selected.month
    ensures row.paymentId.Some? ==>
      exists i :: (0 <= i < |payments| && payments[i].id == row.paymentId.value && PaidInMonth(payments[i], t.id, selected)
                   && forall j :: 0 <= j < i ==> !PaidInMonth(payments[j], t.id, selected))
  {
    var start, next := StartOfMonth(selected), StartOfNextMonth(selected);
    var mine := PaymentsOf(payments, t.id);
    var inMonth := PaidWithin(mine, start, next);
    var rent := RentOf(Some(room));
    var due := rent * MonthsBilled(selected, t.createdAt) - Total(PaidBefore(mine, next));
    WindowFacts(selected);
    if inMonth != [] then
      assert inMonth[0] in inMonth;
      FirstInMonthIsFirstStored(payments, t.id, selected);
      StatusRow(t.id, t.name, t.mobile, room.roomNumber, due, MonthStatus(Total(inMonth), rent), FirstId(inMonth))
    else
      StatusRow(t.id, t.name, t.mobile, room.roomNumber, due, MonthStatus(Total(inMonth), rent), FirstId(inMonth))
  }

  /** A payment of the tenant dated in the calendar month of `selected`. */
  predicate PaidInMonth(p: Payment, tenantId: Id, selected: Date)
  {
    p.tenantId == tenantId && p.paymentDate.year == selected.year && p.paymentDate.month == selected.month
  }

  /** The first in-month payment the pipeline sees is the tenant's first in-month payment
      in stored order. */
  lemma FirstInMonthIsFirstStored(payments: seq<Payment>, tenantId: Id, selected: Date)
    requires PaidWithin(PaymentsOf(payments, tenantId), StartOfMonth(selected), StartOfNextMonth(selected)) != []
    ensures exists i :: (0 <= i < |payments|
      && payments[i] == PaidWithin(PaymentsOf(payments, tenantId), StartOfMonth(selected), StartOfNextMonth(selected))[0]
      && PaidInMonth(payments[i], tenantId, selected)
      && forall j :: 0 <= j < i ==> !PaidInMonth(payments[j], tenantId, selected))
  {
    var start, next := StartOfMonth(selected), StartOfNextMonth(selected);
    WindowFacts(selected);
    FilterFilterFirst(payments, (p: Payment) => p.tenantId == tenantId,
                      (p: Payment) => InWindow(p.paymentDate, start, next));
  }

  lemma WindowFacts(selected: Date)
    ensures forall x :: InWindow(x, StartOfMonth(selected), StartOfNextMonth(selected)) <==>
      (x.year == selected.year && x.month == selected.month)
  {
    forall x ensures InWindow(x, StartOfMonth(selected), StartOfNextMonth(selected)) <==>
      (x.year == selected.year && x.month == selected.month) {
      WindowIsCalendarMonth(selected, x);
    }
  }

  function RowsFor(roster: seq<(Tenant, Room)>, payments: seq<Payment>, selected: Date): (rows: seq<StatusRow>)
    ensures |rows| == |roster|
    ensures forall i :: 0 <= i < |roster| ==> rows[i] == RowFor(roster[i].0, roster[i].1, payments, selected)
  {
    Map(roster, (e: (Tenant, Room)) => RowFor(e.0, e.1, payments, selected))
  }

  /** The handler: 400 when either query parameter is missing or empty (an absent `date`
      is None), otherwise one row per roster entry, in stored order. */
  function Get(tenants: seq<Tenant>, rooms: seq<Room>, payments: seq<Payment>, pgId: Id, date: Option<Date>)
    : (r: Reply<seq<StatusRow>>)
    ensures r.Err? <==> pgId == "" || date.None?
    ensures r.Err? ==> r.status == 400 && r.message == MissingFields
    ensures r.Ok? ==> r.body == RowsFor(Roster(tenants, rooms, pgId, StartOfNextMonth(date.value)), payments, date.value)
  {
    if pgId == "" || date.None? then Err(400, MissingFields)
    else Ok(RowsFor(Roster(tenants, rooms, pgId, StartOfNextMonth(date.value)), payments, date.value))
  }

  /** Rows and roster entries correspond one to one, in order. */
  lemma RowsMatchRoster(roster: seq<(Tenant, Room)>, payments: seq<Payment>, selected: Date)
    ensures forall row :: row in RowsFor(roster, payments, selected) ==>
      exists e :: e in roster && row == RowFor(e.0, e.1, payments, selected)
    ensures forall e :: e in roster ==> RowFor(e.0, e.1, payments, selected) in RowsFor(roster, payments, selected)
  {
    var rows := RowsFor(roster, payments, selected);
    forall row | row in rows ensures exists e :: e in roster && row == RowFor(e.0, e.1, payments, selected) {
      var i :| 0 <= i < |rows| && rows[i] == row;
      assert roster[i] in roster;
    }
    forall e | e in roster ensures RowFor(e.0, e.1, payments, selected) in rows {
      var i :| 0 <= i < |roster| && roster[i] == e;
      assert rows[i] == RowFor(e.0, e.1, payments, selected);
    }
  }

  /** Every row belongs to a tenant of the PG whose roomId names an existing room,
      who joined before the month's end, and every such tenant has its row. */
  lemma RowsAreTheRoster(tenants: seq<Tenant>, rooms: seq<Room>, payments: seq<Payment>, pgId: Id, date: Date)
    requires pgId != ""
    ensures Get(tenants, rooms, payments, pgId, Some(date)).Ok?
    ensures forall row :: row in Get(tenants, rooms, payments, pgId, Some(date)).body ==>
      exists t, rm :: (t in tenants && OnRoster(t, pgId, StartOfNextMonth(date))
        && Lookup(rooms, RoomKey, t.roomId.value) == Some(rm) && row == RowFor(t, rm, payments, date))
    ensures forall t, rm ::
      (t in tenants && OnRoster(t, pgId, StartOfNextMonth(date)) && Lookup(rooms, RoomKey, t.roomId.value) == Some(rm))
      ==> RowFor(t, rm, payments, date) in Get(tenants, rooms, payments, pgId, Some(date)).body
  {
    var roster := Roster(tenants, rooms, pgId, StartOfNextMonth(date));
    RowsMatchRoster(roster, payments, date);
    forall t, rm | t in tenants && OnRoster(t, pgId, StartOfNextMonth(date))
        && Lookup(rooms, RoomKey, t.roomId.value) == Some(rm)
      ensures RowFor(t, rm, payments, date) in Get(tenants, rooms, payments, pgId, Some(date)).body
    {
      assert (t, rm) in roster;
    }
  }

  // ---- The code on concrete data ----

  const Joined := Date(2024, 1, 15, 0)
  const RoomA := Room("room-a", "pg-1", "floor-1", "101", Finite(2), Some(5000), Date(2024, 1, 1, 0))
  const TenantA := Tenant("tenant-a", "Asha", "9000000001", "Pune", "pg-1", Some("room-a"), None, Joined)
  const FebPayment := Payment("pay-1", "tenant-a", "pg-1", "room-a", 3000, "INR", "order-1", "gw-1", Date(2024, 2, 1, 0))

  /** A tenant who joined on 2024-01-15 at rent 5000 and paid 3000 on 2024-02-01, viewed
      on 2024-02-20: the code bills one month (not two), so the due amount is 2000, and
      the month reads as Partially Paid. */
  lemma FebruaryAsComputed()
    ensures MonthsBilled(Date(2024, 2, 20, 0), Joined) == 1
    ensures RowFor(TenantA, RoomA, [FebPayment], Date(2024, 2, 20, 0)).totalDueAmount == 2000
    ensures RowFor(TenantA, RoomA, [FebPayment], Date(2024, 2, 20, 0)).currentMonthStatus == PartiallyPaid
    ensures RowFor(TenantA, RoomA, [FebPayment], Date(2024, 2, 20, 0)).paymentId == Some("pay-1")
  {
    var sel := Date(2024, 2, 20, 0);
    var mine := PaymentsOf([FebPayment], TenantA.id);
    assert mine == [FebPayment] by {
      assert FebPayment in mine;
    }
    assert PaidBefore(mine, StartOfNextMonth(sel)) == [FebPayment] by {
      assert FebPayment in PaidBefore(mine, StartOfNextMonth(sel));
    }
    assert Total([FebPayment]) == 3000 by {
      assert [FebPayment][..0] == [];
      assert Sum([FebPayment][..0], Amount) == 0;
      assert Amount(FebPayment) == 3000;
    }
    assert PaidWithin(mine, StartOfMonth(sel), StartOfNextMonth(sel)) == [FebPayment] by {
      assert FebPayment in PaidWithin(mine, StartOfMonth(sel), StartOfNextMonth(sel));
    }
  }

  /** The same tenant viewed on 2024-01-20, before paying: one month billed, 5000 due, Unpaid. */
  lemma JanuaryAsComputed()
    ensures RowFor(TenantA, RoomA, [FebPayment], Date(2024, 1, 20, 0)).totalDueAmount == 5000
    ensures RowFor(TenantA, RoomA, [FebPayment], Date(2024, 1, 20, 0)).currentMonthStatus == Unpaid
    ensures RowFor(TenantA, RoomA, [FebPayment], Date(2024, 1, 20, 0)).paymentId == None
  {
    var sel := Date(2024, 1, 20, 0);
    var mine := PaymentsOf([FebPayment], TenantA.id);
    assert mine == [FebPayment] by {
      assert FebPayment in mine;
    }
    assert PaidBefore(mine, StartOfNextMonth(sel)) == [];
    assert PaidWithin(mine, StartOfMonth(sel), StartOfNextMonth(sel)) == [];
  }
}
