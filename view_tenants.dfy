/** `GET /api/pg-structure/view-tenants?pgId`: one PG with its floors, rooms and tenants
    nested inside. */
module ViewTenantsRoute {
  import opened Base
  import opened Tables
  import opened Records
  import opened PgTree
  import StructureAllRoute

  const MissingPg := "PG ID is required."
  const PgNotFound := "PG not found."

  /** 400 without a PG id, 404 when no PG has it, else the tree of the first PG with that `_id`. */
  function Get(pgs: seq<Pg>, floors: seq<Floor>, rooms: seq<Room>, tenants: seq<Tenant>, pgId: Id)
    : (r: Reply<PgNode>)
    ensures r == Err(400, MissingPg) <==> pgId == ""
    ensures r == Err(404, PgNotFound) <==> pgId != "" && KeyAbsent(pgs, PgKey, pgId)
    ensures r.Ok? ==> (r.body.pg in pgs && r.body.pg.id == pgId
                       && r.body == PgNodeFor(r.body.pg, floors, rooms, tenants))
  {
    if pgId == "" then Err(400, MissingPg)
    else match Lookup(pgs, PgKey, pgId)
      case None => Err(404, PgNotFound)
      case Some(pg) => Ok(PgNodeFor(pg, floors, rooms, tenants))
  }

  /** With unique `_id`s the view of a PG is the tree of that very PG, and it agrees with
      the owner-wide view. */
  lemma ViewIsOwnersTree(pgs: seq<Pg>, floors: seq<Floor>, rooms: seq<Room>, tenants: seq<Tenant>, pg: Pg)
    requires UniqueKeys(pgs, PgKey) && pg in pgs && pg.id != "" && pg.ownerId != ""
    ensures Get(pgs, floors, rooms, tenants, pg.id) == Ok(PgNodeFor(pg, floors, rooms, tenants))
    ensures Get(pgs, floors, rooms, tenants, pg.id).body in StructureAllRoute.Get(pgs, floors, rooms, tenants, pg.ownerId).body
  {
    var j :| 0 <= j < |pgs| && pgs[j] == pg;
    LookupFindsOnly(pgs, PgKey, j);
  }
}
