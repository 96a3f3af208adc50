/** `PUT /api/tenants/assign`: set a tenant's roomId and pgId. */
module TenantAssignRoute {
  import opened Base
  import opened Tables
  import opened Records
  import opened Stores
  import opened Ledger

  const MissingFields := "Tenant ID, Room ID, and PG ID are required."
  const TenantNotFound := "Tenant not found."
  const Assigned := "Tenant assigned successfully!"

  /** One `updateOne` of the tenant's `roomId` and `pgId`; the ledger is neither read nor written. */
  method Put(db: PgDatabase, tenantId: Id, roomId: Id, pgId: Id) returns (resp: Response)
    requires db.Valid()
    modifies db`tenants
    ensures db.Valid()
    ensures tenantId == "" || roomId == "" || pgId == "" ==>
      resp == Response(400, MissingFields) && db.tenants == old(db.tenants)
    ensures !(tenantId == "" || roomId == "" || pgId == "") && KeyAbsent(old(db.tenants), TenantKey, tenantId) ==>
      resp == Response(404, TenantNotFound) && db.tenants == old(db.tenants)
    ensures !(tenantId == "" || roomId == "" || pgId == "") && !KeyAbsent(old(db.tenants), TenantKey, tenantId) ==>
      resp == Response(200, Assigned) && db.tenants == Repointed(old(db.tenants), tenantId, roomId, pgId)
  {
    if tenantId == "" || roomId == "" || pgId == "" {
      return Response(400, MissingFields);
    }
    if IndexOf(db.tenants, TenantKey, tenantId).None? {
      return Response(404, TenantNotFound);
    }
    RepointedOnly(db.tenants, tenantId, roomId, pgId);
    db.tenants := Repointed(db.tenants, tenantId, roomId, pgId);
    return Response(200, Assigned);
  }
}
