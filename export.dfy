/** `GET /api/payments/export?pgId&date`: the month's payments of one PG as report rows. */
module ExportRoute {
  import opened Base
  import opened Calendar
  import opened Tables
  import opened Records

  const MissingFields := "PG ID and date are required."

  /** One projected row. `date` is midnight of the payment's day: the `%Y-%m-%d` text the
      pipeline emits orders the same way as the day itself. */
  datatype ExportRow = ExportRow(date: Date, tenant: string, room: string, amount: int, transactionId: string)

  function RowDate(row: ExportRow): Date { row.date }

  /** The `$project` of one payment joined with its tenant and room. */
  function RowOf(p: Payment, t: Tenant, rm: Room): (row: ExportRow)
    ensures row.date == DayOf(p.paymentDate) && row.tenant == t.name && row.room == rm.roomNumber
    ensures row.amount == p.amount && row.transactionId == p.gatewayPaymentId
  {
    ExportRow(DayOf(p.paymentDate), t.name, rm.roomNumber, p.amount, p.gatewayPaymentId)
  }

  /** Whether a payment passes the `$match`: this PG, dated in the month window. */
  predicate InMonth(p: Payment, pgId: Id, selected: Date)
  {
    p.pgId == pgId && InWindow(p.paymentDate, StartOfMonth(selected), StartOfNextMonth(selected))
  }

  /** The `$match`, then both `$lookup`/`$unwind` pairs: a payment whose tenant or room is
      gone yields no row. */
  function RowFor(tenants: seq<Tenant>, rooms: seq<Room>, pgId: Id, selected: Date, p: Payment): (r: Option<ExportRow>)
    ensures r.Some? <==> InMonth(p, pgId, selected) && Lookup(tenants, TenantKey, p.tenantId).Some?
                         && Lookup(rooms, RoomKey, p.roomId).Some?
    ensures r.Some? ==> r.value.amount == p.amount && r.value.transactionId == p.gatewayPaymentId
                        && r.value.date == DayOf(p.paymentDate)
                        && r.value.tenant == Lookup(tenants, TenantKey, p.tenantId).value.name
                        && r.value.room == Lookup(rooms, RoomKey, p.roomId).value.roomNumber
  {
    if !InMonth(p, pgId, selected) then None
    else match (Lookup(tenants, TenantKey, p.tenantId), Lookup(rooms, RoomKey, p.roomId))
      case (Some(t), Some(rm)) => Some(RowOf(p, t, rm))
      case _ => None
  }

  /** The rows before the `$sort`, in stored order. */
  function Entries(payments: seq<Payment>, tenants: seq<Tenant>, rooms: seq<Room>, pgId: Id, selected: Date)
    : (r: seq<ExportRow>)
    ensures forall row :: row in r <==>
      (exists p :: p in payments && RowFor(tenants, rooms, pgId, selected, p) == Some(row))
  {
    FilterMap(payments, (p: Payment) => RowFor(tenants, rooms, pgId, selected, p))
  }

  /** The handler's JSON branch: 400 when either parameter is missing, else the rows sorted
      by date, oldest first. */
  function Get(payments: seq<Payment>, tenants: seq<Tenant>, rooms: seq<Room>, pgId: Id, date: Option<Date>)
    : (r: Reply<seq<ExportRow>>)
    ensures r.Err? <==> pgId == "" || date.None?
    ensures r.Err? ==> r.status == 400 && r.message == MissingFields
    ensures r.Ok? ==> multiset(r.body) == multiset(Entries(payments, tenants, rooms, pgId, date.value))
    ensures r.Ok? ==> SortedBy(r.body, RowDate, false)
  {
    if pgId == "" || date.None? then Err(400, MissingFields)
    else Ok(SortByDate(Entries(payments, tenants, rooms, pgId, date.value), RowDate, false))
  }

  /** A row is in the report exactly when a payment of this PG, dated in the selected
      month, has an existing tenant and room and projects to it. */
  lemma ReportIsTheMonth(payments: seq<Payment>, tenants: seq<Tenant>, rooms: seq<Room>, pgId: Id, selected: Date,
                         row: ExportRow)
    requires pgId != ""
    ensures row in Get(payments, tenants, rooms, pgId, Some(selected)).body <==>
      exists p, t, rm :: (p in payments && p.pgId == pgId
        && p.paymentDate.year == selected.year && p.paymentDate.month == selected.month
        && Lookup(tenants, TenantKey, p.tenantId) == Some(t) && Lookup(rooms, RoomKey, p.roomId) == Some(rm)
        && row == RowOf(p, t, rm))
  {
    var body := Get(payments, tenants, rooms, pgId, Some(selected)).body;
    var entries := Entries(payments, tenants, rooms, pgId, selected);
    assert row in body <==> row in entries by {
      assert row in body <==> row in multiset(body);
      assert row in entries <==> row in multiset(entries);
    }
    EntryIsMonthRow(payments, tenants, rooms, pgId, selected, row);
  }

  lemma EntryIsMonthRow(payments: seq<Payment>, tenants: seq<Tenant>, rooms: seq<Room>, pgId: Id, selected: Date,
                        row: ExportRow)
    ensures row in Entries(payments, tenants, rooms, pgId, selected) <==>
      exists p, t, rm :: (p in payments && p.pgId == pgId
        && p.paymentDate.year == selected.year && p.paymentDate.month == selected.month
        && Lookup(tenants, TenantKey, p.tenantId) == Some(t) && Lookup(rooms, RoomKey, p.roomId) == Some(rm)
        && row == RowOf(p, t, rm))
  {
    var entries := Entries(payments, tenants, rooms, pgId, selected);
    if row in entries {
      var p :| p in payments && RowFor(tenants, rooms, pgId, selected, p) == Some(row);
      var t, rm := Lookup(tenants, TenantKey, p.tenantId).value, Lookup(rooms, RoomKey, p.roomId).value;
      WindowIsCalendarMonth(selected, p.paymentDate);
      assert row == RowOf(p, t, rm);
    } else {
      forall p, t, rm | p in payments && p.pgId == pgId
          && p.paymentDate.year == selected.year && p.paymentDate.month == selected.month
          && Lookup(tenants, TenantKey, p.tenantId) == Some(t) && Lookup(rooms, RoomKey, p.roomId) == Some(rm)
        ensures row != RowOf(p, t, rm)
      {
        WindowIsCalendarMonth(selected, p.paymentDate);
        assert RowFor(tenants, rooms, pgId, selected, p) == Some(RowOf(p, t, rm));
      }
    }
  }
}
