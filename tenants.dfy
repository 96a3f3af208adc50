/** `/api/tenants`: create, list, edit and remove tenants, keeping mobile numbers
    unique by checking before each write. */
module TenantsRoute {
  import opened Base
  import opened Calendar
  import opened Tables
  import opened Records
  import opened Stores

  const MissingFields := "Missing required fields."
  const MobileTaken := "A tenant with this mobile number already exists."
  const Created := "Tenant created successfully!"
  const MissingPg := "PG ID is required."
  const MissingUpdateFields := "Missing required fields for update."
  const MobileInUse := "This mobile number is already in use by another tenant."
  const TenantNotFound := "Tenant not found."
  const Updated := "Tenant updated successfully!"
  const MissingTenant := "Tenant ID is required."
  const Removed := "Tenant removed successfully!"

  /** No two tenants share a mobile number. No index enforces it; the handlers' checks keep it. */
  predicate MobilesUnique(tenants: seq<Tenant>)
  {
    UniqueKeys(tenants, TenantMobile)
  }

  /** `findOne({ mobile, _id: { $ne: tenantId } })` finds something. */
  predicate MobileUsedByOther(tenants: seq<Tenant>, mobile: string, tenantId: Id)
  {
    exists j :: 0 <= j < |tenants| && tenants[j].mobile == mobile && tenants[j].id != tenantId
  }

  /** The document POST inserts: no roomId and no password yet. */
  function NewTenant(id: Id, name: string, mobile: string, address: string, pgId: Id, now: Date): (t: Tenant)
    ensures t.id == id && t.name == name && t.mobile == mobile && t.address == address && t.pgId == pgId
    ensures t.roomId == None && t.password == None && t.createdAt == now
  {
    Tenant(id, name, mobile, address, pgId, None, None, now)
  }

  /** POST: 400 on a missing field, 409 when the mobile is taken, else one tenant appended
      (201). `newId` is the `_id` the driver generates. */
  method Post(db: PgDatabase, name: string, mobile: string, address: string, pgId: Id, newId: Id, now: Date)
    returns (resp: Response)
    requires db.Valid() && KeyAbsent(db.tenants, TenantKey, newId)
    modifies db`tenants
    ensures db.Valid()
    ensures old(MobilesUnique(db.tenants)) ==> MobilesUnique(db.tenants)
    ensures name == "" || mobile == "" || address == "" || pgId == "" ==>
      resp == Response(400, MissingFields) && db.tenants == old(db.tenants)
    ensures !(name == "" || mobile == "" || address == "" || pgId == "") && !KeyAbsent(old(db.tenants), TenantMobile, mobile) ==>
      resp == Response(409, MobileTaken) && db.tenants == old(db.tenants)
    ensures !(name == "" || mobile == "" || address == "" || pgId == "") && KeyAbsent(old(db.tenants), TenantMobile, mobile) ==>
      resp == Response(201, Created) && db.tenants == old(db.tenants) + [NewTenant(newId, name, mobile, address, pgId, now)]
  {
    if name == "" || mobile == "" || address == "" || pgId == "" {
      return Response(400, MissingFields);
    }
    if IndexOf(db.tenants, TenantMobile, mobile).Some? {
      return Response(409, MobileTaken);
    }
    var t := NewTenant(newId, name, mobile, address, pgId, now);
    UniqueAfterAppend(db.tenants, TenantKey, t);
    if MobilesUnique(db.tenants) {
      UniqueAfterAppend(db.tenants, TenantMobile, t);
    }
    db.tenants := db.tenants + [t];
    return Response(201, Created);
  }

  /** The tenants of one PG, in stored order. */
  function OfPg(tenants: seq<Tenant>, pgId: Id): (r: seq<Tenant>)
    ensures forall t :: t in r <==> t in tenants && t.pgId == pgId
  {
    Filter(tenants, (t: Tenant) => t.pgId == pgId)
  }

  /** GET: 400 without a PG id, else exactly the tenants of that PG. */
  function Get(tenants: seq<Tenant>, pgId: Id): (r: Reply<seq<Tenant>>)
    ensures r.Err? <==> pgId == ""
    ensures r.Err? ==> r.status == 400 && r.message == MissingPg
    ensures r.Ok? ==> forall t :: t in r.body <==> t in tenants && t.pgId == pgId
  {
    if pgId == "" then Err(400, MissingPg) else Ok(OfPg(tenants, pgId))
  }

  /** The `$set: { name, mobile, address }` of PUT, on one tenant. */
  function Edited(t: Tenant, name: string, mobile: string, address: string): (r: Tenant)
    ensures r.name == name && r.mobile == mobile && r.address == address
    ensures r.id == t.id && r.pgId == t.pgId && r.roomId == t.roomId && r.password == t.password && r.createdAt == t.createdAt
  {
    t.(name := name, mobile := mobile, address := address)
  }

  function EditedTenants(tenants: seq<Tenant>, tenantId: Id, name: string, mobile: string, address: string): seq<Tenant>
  {
    UpdateFirst(tenants, TenantKey, tenantId, (t: Tenant) => Edited(t, name, mobile, address))
  }

  /** Editing keeps ids unique and, when no other tenant holds the new mobile, mobile numbers too. */
  lemma EditKeepsUnique(tenants: seq<Tenant>, tenantId: Id, name: string, mobile: string, address: string)
    requires UniqueKeys(tenants, TenantKey)
    ensures UniqueKeys(EditedTenants(tenants, tenantId, name, mobile, address), TenantKey)
    ensures MobilesUnique(tenants) && !MobileUsedByOther(tenants, mobile, tenantId) ==>
      MobilesUnique(EditedTenants(tenants, tenantId, name, mobile, address))
  {
    var f := (t: Tenant) => Edited(t, name, mobile, address);
    UpdateKeepsUnique(tenants, TenantKey, tenantId, f);
    UpdateOnly(tenants, TenantKey, tenantId, f);
  }

  /** PUT: 400 on a missing field, 409 when another tenant holds the mobile (keeping one's
      own mobile is allowed), 404 for an unknown id, else only name, mobile and address change. */
  method Put(db: PgDatabase, tenantId: Id, name: string, mobile: string, address: string) returns (resp: Response)
    requires db.Valid()
    modifies db`tenants
    ensures db.Valid()
    ensures old(MobilesUnique(db.tenants)) ==> MobilesUnique(db.tenants)
    ensures tenantId == "" || name == "" || mobile == "" || address == "" ==>
      resp == Response(400, MissingUpdateFields) && db.tenants == old(db.tenants)
    ensures !(tenantId == "" || name == "" || mobile == "" || address == "") && old(MobileUsedByOther(db.tenants, mobile, tenantId)) ==>
      resp == Response(409, MobileInUse) && db.tenants == old(db.tenants)
    ensures (!(tenantId == "" || name == "" || mobile == "" || address == "") && !old(MobileUsedByOther(db.tenants, mobile, tenantId))
             && KeyAbsent(old(db.tenants), TenantKey, tenantId)) ==>
      resp == Response(404, TenantNotFound) && db.tenants == old(db.tenants)
    ensures (!(tenantId == "" || name == "" || mobile == "" || address == "") && !old(MobileUsedByOther(db.tenants, mobile, tenantId))
             && !KeyAbsent(old(db.tenants), TenantKey, tenantId)) ==>
      resp == Response(200, Updated) && db.tenants == EditedTenants(old(db.tenants), tenantId, name, mobile, address)
  {
    if tenantId == "" || name == "" || mobile == "" || address == "" {
      return Response(400, MissingUpdateFields);
    }
    if MobileUsedByOther(db.tenants, mobile, tenantId) {
      return Response(409, MobileInUse);
    }
    if IndexOf(db.tenants, TenantKey, tenantId).None? {
      return Response(404, TenantNotFound);
    }
    EditKeepsUnique(db.tenants, tenantId, name, mobile, address);
    db.tenants := EditedTenants(db.tenants, tenantId, name, mobile, address);
    return Response(200, Updated);
  }

  /** DELETE: 400 without an id, 404 when nothing is deleted, else exactly that tenant is removed. */
  method Delete(db: PgDatabase, tenantId: Id) returns (resp: Response)
    requires db.Valid()
    modifies db`tenants
    ensures db.Valid()
    ensures old(MobilesUnique(db.tenants)) ==> MobilesUnique(db.tenants)
    ensures tenantId == "" ==> resp == Response(400, MissingTenant) && db.tenants == old(db.tenants)
    ensures tenantId != "" && KeyAbsent(old(db.tenants), TenantKey, tenantId) ==>
      resp == Response(404, TenantNotFound) && db.tenants == old(db.tenants)
    ensures tenantId != "" && !KeyAbsent(old(db.tenants), TenantKey, tenantId) ==>
      resp == Response(200, Removed) && db.tenants == RemoveFirst(old(db.tenants), TenantKey, tenantId)
      && (forall t :: t in db.tenants <==> t in old(db.tenants) && t.id != tenantId)
  {
    if tenantId == "" {
      return Response(400, MissingTenant);
    }
    if IndexOf(db.tenants, TenantKey, tenantId).None? {
      return Response(404, TenantNotFound);
    }
    RemoveOnly(db.tenants, TenantKey, tenantId);
    var i := IndexOf(db.tenants, TenantKey, tenantId).value;
    if MobilesUnique(db.tenants) {
      UniqueAfterRemove(db.tenants, TenantMobile, i);
    }
    db.tenants := RemoveFirst(db.tenants, TenantKey, tenantId);
    return Response(200, Removed);
  }
}
