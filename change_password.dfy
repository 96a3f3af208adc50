/** `PUT /api/tenants/change-password`. The bcrypt calls are parameters: `matches` is
    `compare(plain, hash)` and `hashOf` is `hash(plain, 12)`. */
module ChangePasswordRoute {
  import opened Base
  import opened Tables
  import opened Records
  import opened Stores

  const MissingFields := "Missing required fields."
  const NoAccount := "Tenant account not found."
  const WrongPassword := "Incorrect current password."
  const Changed := "Password updated successfully!"

  function WithPassword(t: Tenant, hashed: string): (r: Tenant)
    ensures r.password == Some(hashed)
    ensures r.id == t.id && r.name == t.name && r.mobile == t.mobile && r.address == t.address
    ensures r.pgId == t.pgId && r.roomId == t.roomId && r.createdAt == t.createdAt
  {
    t.(password := Some(hashed))
  }

  function Rehashed(tenants: seq<Tenant>, tenantId: Id, hashed: string): seq<Tenant>
  {
    UpdateFirst(tenants, TenantKey, tenantId, (t: Tenant) => WithPassword(t, hashed))
  }

  /** 400 on a missing field, 404 for an unknown tenant, 403 when the current password does
      not match the stored hash; otherwise only that tenant's password changes, to the hash
      of the new one. A tenant with no stored password makes `compare` throw, which the
      handler answers with 500. */
  method Put(db: PgDatabase, tenantId: Id, currentPassword: string, newPassword: string,
             matches: (string, string) -> bool, hashOf: string -> string)
    returns (resp: Response)
    requires db.Valid()
    modifies db`tenants
    ensures db.Valid()
    ensures tenantId == "" || currentPassword == "" || newPassword == "" ==>
      resp == Response(400, MissingFields) && db.tenants == old(db.tenants)
    ensures !(tenantId == "" || currentPassword == "" || newPassword == "") && KeyAbsent(old(db.tenants), TenantKey, tenantId) ==>
      resp == Response(404, NoAccount) && db.tenants == old(db.tenants)
    ensures !(tenantId == "" || currentPassword == "" || newPassword == "") && !KeyAbsent(old(db.tenants), TenantKey, tenantId) ==>
      var t := old(Lookup(db.tenants, TenantKey, tenantId)).value;
      if t.password.None? then resp == Response(500, InternalError) && db.tenants == old(db.tenants)
      else if !matches(currentPassword, t.password.value) then resp == Response(403, WrongPassword) && db.tenants == old(db.tenants)
      else resp == Response(200, Changed) && db.tenants == Rehashed(old(db.tenants), tenantId, hashOf(newPassword))
  {
    if tenantId == "" || currentPassword == "" || newPassword == "" {
      return Response(400, MissingFields);
    }
    var found := Lookup(db.tenants, TenantKey, tenantId);
    if found.None? {
      return Response(404, NoAccount);
    }
    var t := found.value;
    if t.password.None? {
      return Response(500, InternalError);
    }
    if !matches(currentPassword, t.password.value) {
      return Response(403, WrongPassword);
    }
    var hashed := hashOf(newPassword);
    UpdateKeepsUnique(db.tenants, TenantKey, tenantId, (t: Tenant) => WithPassword(t, hashed));
    db.tenants := Rehashed(db.tenants, tenantId, hashed);
    return Response(200, Changed);
  }

  /** The change touches only the password of the tenant with that id. */
  lemma RehashedOnly(tenants: seq<Tenant>, tenantId: Id, hashed: string)
    requires UniqueKeys(tenants, TenantKey)
    ensures |Rehashed(tenants, tenantId, hashed)| == |tenants|
    ensures forall j :: 0 <= j < |tenants| ==>
      Rehashed(tenants, tenantId, hashed)[j] == if tenants[j].id == tenantId then tenants[j].(password := Some(hashed)) else tenants[j]
  {
    UpdateOnly(tenants, TenantKey, tenantId, (t: Tenant) => WithPassword(t, hashed));
  }
}
