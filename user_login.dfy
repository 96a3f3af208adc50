/** `POST /api/auth/user-login`: a tenant signs in with a mobile number alone. */
module UserLoginRoute {
  import opened Base
  import opened Tables
  import opened Records
  import TenantCheckMobileRoute

  const MissingMobile := "Mobile number is required."
  const NoAccount := "No account found with this mobile number."
  const NoPg := "Assigned PG not found. Please contact your PG manager."

  datatype TenantSummary = TenantSummary(id: Id, name: string, mobile: string)
  datatype PgSummary = PgSummary(id: Id, name: string, address: string)
  datatype Welcome = Welcome(tenant: TenantSummary, pg: PgSummary)

  /** 400 without a mobile, 404 when no tenant has it, 404 when the tenant's PG is gone;
      otherwise the tenant's and the PG's summaries. No password is asked for. */
  function Post(tenants: seq<Tenant>, pgs: seq<Pg>, mobile: string): (r: Reply<Welcome>)
    ensures r == Err(400, MissingMobile) <==> mobile == ""
    ensures r == Err(404, NoAccount) <==> mobile != "" && KeyAbsent(tenants, TenantMobile, mobile)
    ensures r == Err(404, NoPg) <==>
      (mobile != "" && !KeyAbsent(tenants, TenantMobile, mobile)
       && KeyAbsent(pgs, PgKey, Lookup(tenants, TenantMobile, mobile).value.pgId))
    ensures r.Ok? ==> var t := Lookup(tenants, TenantMobile, mobile).value;
      Lookup(pgs, PgKey, t.pgId).Some? && var pg := Lookup(pgs, PgKey, t.pgId).value;
      r.body == Welcome(TenantSummary(t.id, t.name, t.mobile), PgSummary(pg.id, pg.name, pg.address))
    ensures r.Ok? ==> exists t, pg :: (t in tenants && t.mobile == mobile && pg in pgs && pg.id == t.pgId
      && r.body == Welcome(TenantSummary(t.id, t.name, t.mobile), PgSummary(pg.id, pg.name, pg.address)))
  {
    if mobile == "" then Err(400, MissingMobile)
    else match Lookup(tenants, TenantMobile, mobile)
      case None => Err(404, NoAccount)
      case Some(t) =>
        match Lookup(pgs, PgKey, t.pgId)
        case None => Err(404, NoPg)
        case Some(pg) => Ok(Welcome(TenantSummary(t.id, t.name, t.mobile), PgSummary(pg.id, pg.name, pg.address)))
  }

  /** The mobile check answers 200 for exactly the numbers this handler does not reject
      as unknown. */
  lemma CheckAgreesWithLogin(tenants: seq<Tenant>, pgs: seq<Pg>, mobile: string)
    requires mobile != ""
    ensures TenantCheckMobileRoute.Post(tenants, mobile).status == 200 <==> Post(tenants, pgs, mobile) != Err(404, NoAccount)
  {
  }
}
