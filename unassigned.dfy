/** `GET /api/tenants/unassigned?pgId`: the tenants of a PG that have no room yet. */
module UnassignedRoute {
  import opened Base
  import opened Tables
  import opened Records

  const MissingPg := "PG ID is required."

  /** The projection `{ name: 1, mobile: 1 }`, which keeps `_id` as well. */
  datatype TenantSummary = TenantSummary(id: Id, name: string, mobile: string)

  function Summary(t: Tenant): TenantSummary
  {
    TenantSummary(t.id, t.name, t.mobile)
  }

  /** `roomId: null` matches a null or an absent roomId. */
  predicate Unassigned(t: Tenant, pgId: Id)
  {
    t.pgId == pgId && t.roomId.None?
  }

  /** `find({ pgId, roomId: null }).project({ name: 1, mobile: 1 })`. */
  function Get(tenants: seq<Tenant>, pgId: Id): (r: Reply<seq<TenantSummary>>)
    ensures r.Err? <==> pgId == ""
    ensures r.Err? ==> r.status == 400 && r.message == MissingPg
    ensures r.Ok? ==> forall s :: s in r.body ==> exists t :: t in tenants && Unassigned(t, pgId) && s == Summary(t)
    ensures r.Ok? ==> forall t :: t in tenants && Unassigned(t, pgId) ==> Summary(t) in r.body
  {
    if pgId == "" then Err(400, MissingPg)
    else
      var hits := Filter(tenants, (t: Tenant) => Unassigned(t, pgId));
      var out := Map(hits, Summary);
      assert forall s :: s in out ==> exists t :: t in hits && s == Summary(t) by {
        forall s | s in out ensures exists t :: t in hits && s == Summary(t) {
          var i :| 0 <= i < |out| && out[i] == s;
          assert hits[i] in hits;
        }
      }
      assert forall t :: t in hits ==> Summary(t) in out by {
        forall t | t in hits ensures Summary(t) in out {
          var i :| 0 <= i < |hits| && hits[i] == t;
          assert out[i] == Summary(t);
        }
      }
      Ok(out)
  }
}
