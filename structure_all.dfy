/** `GET /api/pg-structure/all?ownerId`: every PG of an owner, each with its floors,
    rooms and tenants nested inside. */
module StructureAllRoute {
  import opened Base
  import opened Tables
  import opened Records
  import opened PgTree
  import PgsRoute

  const MissingOwner := "Owner ID is required."

  /** 400 without an owner id; otherwise one tree per PG of that owner, in stored order. */
  function Get(pgs: seq<Pg>, floors: seq<Floor>, rooms: seq<Room>, tenants: seq<Tenant>, ownerId: Id)
    : (r: Reply<seq<PgNode>>)
    ensures r.Err? <==> ownerId == ""
    ensures r.Err? ==> r.status == 400 && r.message == MissingOwner
    ensures r.Ok? ==> |r.body| == |PgsRoute.OwnedBy(pgs, ownerId)|
    ensures r.Ok? ==> forall n :: n in r.body ==>
      (n.pg in pgs && n.pg.ownerId == ownerId && n == PgNodeFor(n.pg, floors, rooms, tenants))
    ensures r.Ok? ==> forall pg :: pg in pgs && pg.ownerId == ownerId ==>
      PgNodeFor(pg, floors, rooms, tenants) in r.body
  {
    if ownerId == "" then Err(400, MissingOwner)
    else
      var mine := PgsRoute.OwnedBy(pgs, ownerId);
      var nodes := Map(mine, (pg: Pg) => PgNodeFor(pg, floors, rooms, tenants));
      assert forall n :: n in nodes ==> exists pg :: pg in mine && n == PgNodeFor(pg, floors, rooms, tenants) by {
        forall n | n in nodes ensures exists pg :: pg in mine && n == PgNodeFor(pg, floors, rooms, tenants) {
          var i :| 0 <= i < |nodes| && nodes[i] == n;
          assert mine[i] in mine;
        }
      }
      assert forall pg :: pg in mine ==> PgNodeFor(pg, floors, rooms, tenants) in nodes by {
        forall pg | pg in mine ensures PgNodeFor(pg, floors, rooms, tenants) in nodes {
          var i :| 0 <= i < |mine| && mine[i] == pg;
          assert nodes[i] == PgNodeFor(pg, floors, rooms, tenants);
        }
      }
      Ok(nodes)
  }
}
