/** `PUT /api/assignments/upgrade`: move a tenant to a new room. */
module UpgradeRoute {
  import opened Base
  import opened Calendar
  import opened Tables
  import opened Records
  import opened Stores
  import opened Ledger

  const MissingFields := "All upgrade details are required."
  const Upgraded := "Room upgrade successful!"

  /** Three writes in sequence: close every active record of the tenant, insert the new
      active record, repoint the tenant. The tenant is not looked up first, so an unknown
      tenant still gets a ledger record and the reply is 200. */
  method Put(db: PgDatabase, tenantId: Id, newRoomId: Id, newPgId: Id, newRent: JsonValue, now: Date)
    returns (resp: Response)
    requires db.Valid()
    modifies db`assignments, db`tenants
    ensures db.Valid()
    ensures tenantId == "" || newRoomId == "" || newPgId == "" || newRent.Undefined? ==>
      resp == Response(400, MissingFields) && db.assignments == old(db.assignments) && db.tenants == old(db.tenants)
    ensures !(tenantId == "" || newRoomId == "" || newPgId == "" || newRent.Undefined?) ==>
      resp == Response(200, Upgraded)
      && db.assignments == Ledger.Upgraded(old(db.assignments), tenantId, newRoomId, newPgId, newRent, now)
      && db.tenants == Repointed(old(db.tenants), tenantId, newRoomId, newPgId)
  {
    if tenantId == "" || newRoomId == "" || newPgId == "" || newRent.Undefined? {
      return Response(400, MissingFields);
    }
    db.assignments := DeactivateAll(db.assignments, tenantId, now);
    db.assignments := db.assignments + [Opened(tenantId, newRoomId, newPgId, newRent, now)];
    RepointedOnly(db.tenants, tenantId, newRoomId, newPgId);
    db.tenants := Repointed(db.tenants, tenantId, newRoomId, newPgId);
    return Response(200, Upgraded);
  }
}
