/** `/api/pgs`: create a PG for an owner, and list an owner's PGs. */
module PgsRoute {
  import opened Base
  import opened Calendar
  import opened Tables
  import opened Records
  import opened Stores

  const MissingFields := "Missing required fields."
  const Created := "PG created successfully!"
  const MissingOwner := "Owner ID is required."

  /** POST: 400 on a missing field, else one PG appended with no uniqueness check (201);
      the reply also carries the new document. */
  method Post(db: PgDatabase, name: string, address: string, ownerId: Id, newId: Id, now: Date)
    returns (resp: Response, pg: Option<Pg>)
    requires db.Valid() && KeyAbsent(db.pgs, PgKey, newId)
    modifies db`pgs
    ensures db.Valid()
    ensures name == "" || address == "" || ownerId == "" ==>
      resp == Response(400, MissingFields) && pg == None && db.pgs == old(db.pgs)
    ensures !(name == "" || address == "" || ownerId == "") ==>
      resp == Response(201, Created) && pg == Some(Pg(newId, name, address, ownerId, now)) && db.pgs == old(db.pgs) + [pg.value]
  {
    if name == "" || address == "" || ownerId == "" {
      return Response(400, MissingFields), None;
    }
    var p := Pg(newId, name, address, ownerId, now);
    UniqueAfterAppend(db.pgs, PgKey, p);
    db.pgs := db.pgs + [p];
    return Response(201, Created), Some(p);
  }

  function OwnedBy(pgs: seq<Pg>, ownerId: Id): (r: seq<Pg>)
    ensures forall p :: p in r <==> p in pgs && p.ownerId == ownerId
  {
    Filter(pgs, (p: Pg) => p.ownerId == ownerId)
  }

  /** GET: 400 without an owner id, else exactly that owner's PGs. */
  function Get(pgs: seq<Pg>, ownerId: Id): (r: Reply<seq<Pg>>)
    ensures r.Err? <==> ownerId == ""
    ensures r.Err? ==> r.status == 400 && r.message == MissingOwner
    ensures r.Ok? ==> forall p :: p in r.body <==> p in pgs && p.ownerId == ownerId
  {
    if ownerId == "" then Err(400, MissingOwner) else Ok(OwnedBy(pgs, ownerId))
  }
}
