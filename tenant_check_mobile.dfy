/** `POST /api/auth/tenant-check-mobile`: whether some tenant has this mobile number. */
module TenantCheckMobileRoute {
  import opened Base
  import opened Tables
  import opened Records

  const MissingMobile := "Mobile number is required."
  const NoAccount := "No account found with this mobile number."
  const Verified := "Mobile number verified."

  /** A read-only check: it is a function of the stored tenants, so it changes nothing. */
  function Post(tenants: seq<Tenant>, mobile: string): (r: Response)
    ensures r.status == 400 <==> mobile == ""
    ensures r.status == 404 <==> mobile != "" && forall t :: t in tenants ==> t.mobile != mobile
    ensures r.status == 200 <==> mobile != "" && exists t :: t in tenants && t.mobile == mobile
    ensures r.status == 400 ==> r.message == MissingMobile
    ensures r.status == 404 ==> r.message == NoAccount
    ensures r.status == 200 ==> r.message == Verified
  {
    if mobile == "" then Response(400, MissingMobile)
    else match Lookup(tenants, TenantMobile, mobile)
      case None => Response(404, NoAccount)
      case Some(_) => Response(200, Verified)
  }
}
