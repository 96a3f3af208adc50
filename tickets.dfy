/** `/api/tickets`: tenants raise complaint tickets, owners list them and change their status. */
module TicketsRoute {
  import opened Base
  import opened Calendar
  import opened Tables
  import opened Records
  import opened Stores

  const MissingInfo := "Missing required information."
  const Submitted := "Ticket submitted successfully!"
  const MissingOwner := "Owner ID is required."
  const MissingUpdate := "Ticket ID and new status are required."
  const TicketNotFound := "Ticket not found."
  const StatusUpdated := "Ticket status updated successfully!"
  const Open := "open"

  /** The document POST inserts: status `open`, created now. */
  function NewTicket(newId: Id, tenantId: Id, pgId: Id, roomId: Id, description: string, now: Date): (t: Ticket)
    ensures t.id == newId && t.tenantId == tenantId && t.pgId == pgId && t.roomId == roomId
    ensures t.description == description && t.status == Open && t.createdAt == now
  {
    Ticket(newId, tenantId, pgId, roomId, description, Open, now)
  }

  /** POST: 400 on a missing field, else one open ticket appended (201). */
  method Post(db: PgDatabase, tenantId: Id, pgId: Id, roomId: Id, description: string, newId: Id, now: Date)
    returns (resp: Response)
    requires db.Valid() && KeyAbsent(db.tickets, TicketKey, newId)
    modifies db`tickets
    ensures db.Valid()
    ensures tenantId == "" || pgId == "" || roomId == "" || description == "" ==>
      resp == Response(400, MissingInfo) && db.tickets == old(db.tickets)
    ensures !(tenantId == "" || pgId == "" || roomId == "" || description == "") ==>
      resp == Response(201, Submitted)
      && db.tickets == old(db.tickets) + [NewTicket(newId, tenantId, pgId, roomId, description, now)]
  {
    if tenantId == "" || pgId == "" || roomId == "" || description == "" {
      return Response(400, MissingInfo);
    }
    var t := NewTicket(newId, tenantId, pgId, roomId, description, now);
    UniqueAfterAppend(db.tickets, TicketKey, t);
    db.tickets := db.tickets + [t];
    return Response(201, Submitted);
  }

  /** One projected row of the owner's ticket list. */
  datatype TicketRow = TicketRow(id: Id, description: string, status: string, createdAt: Date,
                                 tenantName: string, pgName: string, roomNumber: string)

  function RowCreated(row: TicketRow): Date { row.createdAt }

  function RowOf(t: Ticket, pg: Pg, tenant: Tenant, rm: Room): (row: TicketRow)
    ensures row.id == t.id && row.description == t.description && row.status == t.status
    ensures row.createdAt == t.createdAt
    ensures row.tenantName == tenant.name && row.pgName == pg.name && row.roomNumber == rm.roomNumber
  {
    TicketRow(t.id, t.description, t.status, t.createdAt, tenant.name, pg.name, rm.roomNumber)
  }

  /** The PG `$lookup`/`$unwind`, the `$match` on the PG's owner, then the tenant and room
      joins: a ticket whose PG, tenant or room is gone yields no row. */
  function RowFor(pgs: seq<Pg>, tenants: seq<Tenant>, rooms: seq<Room>, ownerId: Id, t: Ticket): (r: Option<TicketRow>)
    ensures r.Some? <==> Lookup(pgs, PgKey, t.pgId).Some? && Lookup(pgs, PgKey, t.pgId).value.ownerId == ownerId
                         && Lookup(tenants, TenantKey, t.tenantId).Some? && Lookup(rooms, RoomKey, t.roomId).Some?
    ensures r.Some? ==> r.value.id == t.id && r.value.status == t.status && r.value.createdAt == t.createdAt
                        && r.value.pgName == Lookup(pgs, PgKey, t.pgId).value.name
                        && r.value.tenantName == Lookup(tenants, TenantKey, t.tenantId).value.name
                        && r.value.roomNumber == Lookup(rooms, RoomKey, t.roomId).value.roomNumber
  {
    match Lookup(pgs, PgKey, t.pgId)
    case None => None
    case Some(pg) =>
      if pg.ownerId != ownerId then None
      else match (Lookup(tenants, TenantKey, t.tenantId), Lookup(rooms, RoomKey, t.roomId))
        case (Some(tenant), Some(rm)) => Some(RowOf(t, pg, tenant, rm))
        case _ => None
  }

  function Entries(tickets: seq<Ticket>, pgs: seq<Pg>, tenants: seq<Tenant>, rooms: seq<Room>, ownerId: Id)
    : (r: seq<TicketRow>)
    ensures forall row :: row in r <==> (exists t :: t in tickets && RowFor(pgs, tenants, rooms, ownerId, t) == Some(row))
  {
    FilterMap(tickets, (t: Ticket) => RowFor(pgs, tenants, rooms, ownerId, t))
  }

  /** GET: 400 without an owner id, else the owner's ticket rows, newest first. */
  function Get(tickets: seq<Ticket>, pgs: seq<Pg>, tenants: seq<Tenant>, rooms: seq<Room>, ownerId: Id)
    : (r: Reply<seq<TicketRow>>)
    ensures r.Err? <==> ownerId == ""
    ensures r.Err? ==> r.status == 400 && r.message == MissingOwner
    ensures r.Ok? ==> multiset(r.body) == multiset(Entries(tickets, pgs, tenants, rooms, ownerId))
    ensures r.Ok? ==> SortedBy(r.body, RowCreated, true)
  {
    if ownerId == "" then Err(400, MissingOwner)
    else Ok(SortByDate(Entries(tickets, pgs, tenants, rooms, ownerId), RowCreated, true))
  }

  /** A row is listed exactly when a ticket of a PG of this owner, with existing tenant and
      room, projects to it; so no owner sees another owner's tickets. */
  lemma ListingIsTheOwners(tickets: seq<Ticket>, pgs: seq<Pg>, tenants: seq<Tenant>, rooms: seq<Room>, ownerId: Id,
                           row: TicketRow)
    requires ownerId != ""
    ensures row in Get(tickets, pgs, tenants, rooms, ownerId).body <==>
      exists t, pg, tenant, rm :: (t in tickets && Lookup(pgs, PgKey, t.pgId) == Some(pg) && pg.ownerId == ownerId
        && Lookup(tenants, TenantKey, t.tenantId) == Some(tenant) && Lookup(rooms, RoomKey, t.roomId) == Some(rm)
        && row == RowOf(t, pg, tenant, rm))
  {
    var body := Get(tickets, pgs, tenants, rooms, ownerId).body;
    var entries := Entries(tickets, pgs, tenants, rooms, ownerId);
    assert row in body <==> row in entries by {
      assert row in body <==> row in multiset(body);
      assert row in entries <==> row in multiset(entries);
    }
    EntryIsOwnersRow(tickets, pgs, tenants, rooms, ownerId, row);
  }

  lemma EntryIsOwnersRow(tickets: seq<Ticket>, pgs: seq<Pg>, tenants: seq<Tenant>, rooms: seq<Room>, ownerId: Id,
                         row: TicketRow)
    ensures row in Entries(tickets, pgs, tenants, rooms, ownerId) <==>
      exists t, pg, tenant, rm :: (t in tickets && Lookup(pgs, PgKey, t.pgId) == Some(pg) && pg.ownerId == ownerId
        && Lookup(tenants, TenantKey, t.tenantId) == Some(tenant) && Lookup(rooms, RoomKey, t.roomId) == Some(rm)
        && row == RowOf(t, pg, tenant, rm))
  {
    if row in Entries(tickets, pgs, tenants, rooms, ownerId) {
      var t :| t in tickets && RowFor(pgs, tenants, rooms, ownerId, t) == Some(row);
      var pg, tenant, rm := Lookup(pgs, PgKey, t.pgId).value, Lookup(tenants, TenantKey, t.tenantId).value,
                            Lookup(rooms, RoomKey, t.roomId).value;
      assert row == RowOf(t, pg, tenant, rm);
    } else {
      forall t, pg, tenant, rm | t in tickets && Lookup(pgs, PgKey, t.pgId) == Some(pg) && pg.ownerId == ownerId
          && Lookup(tenants, TenantKey, t.tenantId) == Some(tenant) && Lookup(rooms, RoomKey, t.roomId) == Some(rm)
        ensures row != RowOf(t, pg, tenant, rm)
      {
        assert RowFor(pgs, tenants, rooms, ownerId, t) == Some(RowOf(t, pg, tenant, rm));
      }
    }
  }

  /** The `$set: { status }` of PUT, on one ticket. */
  function WithStatus(t: Ticket, status: string): (r: Ticket)
    ensures r.status == status
    ensures r.id == t.id && r.tenantId == t.tenantId && r.pgId == t.pgId && r.roomId == t.roomId
    ensures r.description == t.description && r.createdAt == t.createdAt
  {
    t.(status := status)
  }

  function StatusSetOn(tickets: seq<Ticket>, ticketId: Id, status: string): seq<Ticket>
  {
    UpdateFirst(tickets, TicketKey, ticketId, (t: Ticket) => WithStatus(t, status))
  }

  /** Under unique ids, PUT changes exactly the status of the ticket with that id. */
  lemma StatusSetOnOnly(tickets: seq<Ticket>, ticketId: Id, status: string)
    requires UniqueKeys(tickets, TicketKey)
    ensures |StatusSetOn(tickets, ticketId, status)| == |tickets|
    ensures forall j :: 0 <= j < |tickets| ==>
      StatusSetOn(tickets, ticketId, status)[j] == if tickets[j].id == ticketId then tickets[j].(status := status) else tickets[j]
    ensures UniqueKeys(StatusSetOn(tickets, ticketId, status), TicketKey)
  {
    UpdateOnly(tickets, TicketKey, ticketId, (t: Ticket) => WithStatus(t, status));
    UpdateKeepsUnique(tickets, TicketKey, ticketId, (t: Ticket) => WithStatus(t, status));
  }

  /** PUT: 400 without an id or status, 404 when no ticket matched, else the status is set.
      Any non-empty status text is accepted. */
  method Put(db: PgDatabase, ticketId: Id, status: string) returns (resp: Response)
    requires db.Valid()
    modifies db`tickets
    ensures db.Valid()
    ensures ticketId == "" || status == "" ==> resp == Response(400, MissingUpdate) && db.tickets == old(db.tickets)
    ensures ticketId != "" && status != "" && KeyAbsent(old(db.tickets), TicketKey, ticketId) ==>
      resp == Response(404, TicketNotFound) && db.tickets == old(db.tickets)
    ensures ticketId != "" && status != "" && !KeyAbsent(old(db.tickets), TicketKey, ticketId) ==>
      resp == Response(200, StatusUpdated) && db.tickets == StatusSetOn(old(db.tickets), ticketId, status)
  {
    if ticketId == "" || status == "" {
      return Response(400, MissingUpdate);
    }
    if IndexOf(db.tickets, TicketKey, ticketId).None? {
      return Response(404, TicketNotFound);
    }
    StatusSetOnOnly(db.tickets, ticketId, status);
    db.tickets := StatusSetOn(db.tickets, ticketId, status);
    return Response(200, StatusUpdated);
  }

  /** A ticket raised on a PG of the owner, by an existing tenant in an existing room, is
      listed to that owner as open. */
  lemma NewTicketListedOpen(tickets: seq<Ticket>, pgs: seq<Pg>, tenants: seq<Tenant>, rooms: seq<Room>,
                            ownerId: Id, t: Ticket, pg: Pg, tenant: Tenant, rm: Room)
    requires ownerId != "" && t.status == Open && pg.ownerId == ownerId
    requires Lookup(pgs, PgKey, t.pgId) == Some(pg)
    requires Lookup(tenants, TenantKey, t.tenantId) == Some(tenant) && Lookup(rooms, RoomKey, t.roomId) == Some(rm)
    ensures exists row :: row in Get(tickets + [t], pgs, tenants, rooms, ownerId).body && row.id == t.id && row.status == Open
  {
    var row := RowOf(t, pg, tenant, rm);
    assert t in tickets + [t];
    ListingIsTheOwners(tickets + [t], pgs, tenants, rooms, ownerId, row);
  }
}
