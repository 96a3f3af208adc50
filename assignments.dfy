/** `POST` and `PUT /api/assignments`: assign a tenant to a room, or upgrade its room. */
module AssignmentsRoute {
  import opened Base
  import opened Calendar
  import opened Tables
  import opened Records
  import opened Stores
  import opened Ledger
  import UpgradeRoute

  const MissingFields := "All assignment details are required."
  const TenantNotFound := "Tenant not found."
  const Created := "Assignment created successfully!"

  /** Repoint the tenant, then append one active record. Earlier active records of the
      tenant stay active. A rent of 0 passes the check; only an absent rent is refused. */
  method Post(db: PgDatabase, tenantId: Id, roomId: Id, pgId: Id, rent: JsonValue, now: Date)
    returns (resp: Response)
    requires db.Valid()
    modifies db`assignments, db`tenants
    ensures db.Valid()
    ensures tenantId == "" || roomId == "" || pgId == "" || rent.Undefined? ==>
      resp == Response(400, MissingFields) && db.assignments == old(db.assignments) && db.tenants == old(db.tenants)
    ensures !(tenantId == "" || roomId == "" || pgId == "" || rent.Undefined?) && KeyAbsent(old(db.tenants), TenantKey, tenantId) ==>
      resp == Response(404, TenantNotFound) && db.assignments == old(db.assignments) && db.tenants == old(db.tenants)
    ensures !(tenantId == "" || roomId == "" || pgId == "" || rent.Undefined?) && !KeyAbsent(old(db.tenants), TenantKey, tenantId) ==>
      resp == Response(200, Created)
      && db.tenants == Repointed(old(db.tenants), tenantId, roomId, pgId)
      && db.assignments == old(db.assignments) + [Opened(tenantId, roomId, pgId, rent, now)]
  {
    if tenantId == "" || roomId == "" || pgId == "" || rent.Undefined? {
      return Response(400, MissingFields);
    }
    if IndexOf(db.tenants, TenantKey, tenantId).None? {
      return Response(404, TenantNotFound);
    }
    RepointedOnly(db.tenants, tenantId, roomId, pgId);
    db.tenants := Repointed(db.tenants, tenantId, roomId, pgId);
    db.assignments := db.assignments + [Opened(tenantId, roomId, pgId, rent, now)];
    return Response(200, Created);
  }

  /** The same three writes as the upgrade route, with the same replies. */
  method Put(db: PgDatabase, tenantId: Id, newRoomId: Id, newPgId: Id, newRent: JsonValue, now: Date)
    returns (resp: Response)
    requires db.Valid()
    modifies db`assignments, db`tenants
    ensures db.Valid()
    ensures tenantId == "" || newRoomId == "" || newPgId == "" || newRent.Undefined? ==>
      resp == Response(400, UpgradeRoute.MissingFields) && db.assignments == old(db.assignments) && db.tenants == old(db.tenants)
    ensures !(tenantId == "" || newRoomId == "" || newPgId == "" || newRent.Undefined?) ==>
      resp == Response(200, UpgradeRoute.Upgraded)
      && db.assignments == Ledger.Upgraded(old(db.assignments), tenantId, newRoomId, newPgId, newRent, now)
      && db.tenants == Repointed(old(db.tenants), tenantId, newRoomId, newPgId)
  {
    resp := UpgradeRoute.Put(db, tenantId, newRoomId, newPgId, newRent, now);
  }
}
