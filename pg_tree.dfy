/** The PG -> floor -> room -> tenant tree that the structure views assemble with
    `$lookup` on `pgId` and nested `$map`/`$filter` stages. Each node holds the stored
    document and its children; the temporary `all_floors`, `all_rooms` and
    `all_tenants` arrays of the pipeline do not appear in it. */
module PgTree {
  import opened Base
  import opened Tables
  import opened Records
  import FloorsRoute
  import TenantsRoute

  datatype RoomNode = RoomNode(room: Room, tenants: seq<Tenant>)
  datatype FloorNode = FloorNode(floor: Floor, rooms: seq<RoomNode>)
  datatype PgNode = PgNode(pg: Pg, floors: seq<FloorNode>)

  /** `$lookup` of `pg_rooms` on `pgId`. The floors and tenants of a PG are
      `FloorsRoute.OfPg` and `TenantsRoute.OfPg`, the same filters the list routes use. */
  function RoomsOfPg(rooms: seq<Room>, pgId: Id): (r: seq<Room>)
    ensures forall rm :: rm in r <==> rm in rooms && rm.pgId == pgId
  {
    Where(rooms, (rm: Room) => rm.pgId, pgId)
  }

  /** A room merged with the PG's tenants whose `roomId` is the room's `_id`. */
  function RoomNodeFor(room: Room, pgTenants: seq<Tenant>): (n: RoomNode)
    ensures n.room == room
    ensures forall t :: t in n.tenants <==> t in pgTenants && t.roomId == Some(room.id)
  {
    RoomNode(room, Filter(pgTenants, (t: Tenant) => t.roomId == Some(room.id)))
  }

  /** A floor merged with the PG's rooms whose `floorId` is the floor's `_id`, each nested in turn. */
  function FloorNodeFor(floor: Floor, pgRooms: seq<Room>, pgTenants: seq<Tenant>): (n: FloorNode)
    ensures n.floor == floor
    ensures forall rn :: rn in n.rooms ==>
      rn.room in pgRooms && rn.room.floorId == floor.id && rn == RoomNodeFor(rn.room, pgTenants)
    ensures forall rm :: rm in pgRooms && rm.floorId == floor.id ==> RoomNodeFor(rm, pgTenants) in n.rooms
  {
    var mine := Filter(pgRooms, (rm: Room) => rm.floorId == floor.id);
    var nodes := Map(mine, (rm: Room) => RoomNodeFor(rm, pgTenants));
    MapIn(mine, (rm: Room) => RoomNodeFor(rm, pgTenants));
    FloorNode(floor, nodes)
  }

  /** A PG with its floors, each floor with its rooms, each room with its tenants. */
  function PgNodeFor(pg: Pg, floors: seq<Floor>, rooms: seq<Room>, tenants: seq<Tenant>): (n: PgNode)
    ensures n.pg == pg
    ensures forall fn :: fn in n.floors ==>
      (fn.floor in floors && fn.floor.pgId == pg.id
       && fn == FloorNodeFor(fn.floor, RoomsOfPg(rooms, pg.id), TenantsRoute.OfPg(tenants, pg.id)))
    ensures forall f :: f in floors && f.pgId == pg.id ==>
      FloorNodeFor(f, RoomsOfPg(rooms, pg.id), TenantsRoute.OfPg(tenants, pg.id)) in n.floors
  {
    var pgRooms, pgTenants := RoomsOfPg(rooms, pg.id), TenantsRoute.OfPg(tenants, pg.id);
    var mine := FloorsRoute.OfPg(floors, pg.id);
    var nodes := Map(mine, (f: Floor) => FloorNodeFor(f, pgRooms, pgTenants));
    MapIn(mine, (f: Floor) => FloorNodeFor(f, pgRooms, pgTenants));
    PgNode(pg, nodes)
  }

  /** Where a room and a tenant sit in the tree: a room under a floor is a room of this PG
      on that floor, and a tenant under a room is exactly a tenant of this PG pointing at
      that room. */
  lemma Nesting(pg: Pg, floors: seq<Floor>, rooms: seq<Room>, tenants: seq<Tenant>, fn: FloorNode, rn: RoomNode, t: Tenant)
    requires fn in PgNodeFor(pg, floors, rooms, tenants).floors && rn in fn.rooms
    ensures fn.floor in floors && fn.floor.pgId == pg.id
    ensures rn.room in rooms && rn.room.pgId == pg.id && rn.room.floorId == fn.floor.id
    ensures t in rn.tenants <==> t in tenants && t.pgId == pg.id && t.roomId == Some(rn.room.id)
  {
  }

  /** A tenant without a roomId appears under no room. */
  lemma UnassignedAppearNowhere(pg: Pg, floors: seq<Floor>, rooms: seq<Room>, tenants: seq<Tenant>, t: Tenant)
    requires t.roomId.None?
    ensures forall fn, rn :: fn in PgNodeFor(pg, floors, rooms, tenants).floors && rn in fn.rooms ==> t !in rn.tenants
  {
  }

  /** A room whose `floorId` is no floor of this PG appears under no floor. */
  lemma OrphanRoomsDropped(pg: Pg, floors: seq<Floor>, rooms: seq<Room>, tenants: seq<Tenant>, rm: Room)
    requires forall f :: f in floors && f.pgId == pg.id ==> f.id != rm.floorId
    ensures forall fn, rn :: fn in PgNodeFor(pg, floors, rooms, tenants).floors && rn in fn.rooms ==> rn.room != rm
  {
  }

  /** Every room of this PG that sits on one of its floors appears under that floor, with
      all of its tenants. */
  lemma RoomsPlaced(pg: Pg, floors: seq<Floor>, rooms: seq<Room>, tenants: seq<Tenant>, f: Floor, rm: Room)
    requires f in floors && f.pgId == pg.id && rm in rooms && rm.pgId == pg.id && rm.floorId == f.id
    ensures exists fn :: (fn in PgNodeFor(pg, floors, rooms, tenants).floors && fn.floor == f
                          && RoomNodeFor(rm, TenantsRoute.OfPg(tenants, pg.id)) in fn.rooms)
  {
    var fn := FloorNodeFor(f, RoomsOfPg(rooms, pg.id), TenantsRoute.OfPg(tenants, pg.id));
    assert fn in PgNodeFor(pg, floors, rooms, tenants).floors;
  }
}
