/** `PUT /api/pg-structure/set-rent`: set the monthly rent of a room. */
module SetRentRoute {
  import opened Base
  import opened Tables
  import opened Records
  import opened Stores

  const MissingFields := "Room ID and rent amount are required."
  const InvalidRent := "Invalid rent amount."
  const RoomNotFound := "Room not found."
  const RentSet := "Rent updated successfully!"

  /** Every rent stored on a room is non-negative. */
  predicate RentsNonNegative(rooms: seq<Room>)
  {
    forall i :: 0 <= i < |rooms| && rooms[i].rent.Some? ==> rooms[i].rent.value >= 0
  }

  function WithRent(r: Room, rent: int): (r': Room)
    ensures r'.rent == Some(rent)
    ensures r'.id == r.id && r'.pgId == r.pgId && r'.floorId == r.floorId && r'.roomNumber == r.roomNumber
    ensures r'.capacity == r.capacity && r'.createdAt == r.createdAt
  {
    r.(rent := Some(rent))
  }

  function RentSetOn(rooms: seq<Room>, roomId: Id, rent: int): seq<Room>
  {
    UpdateFirst(rooms, RoomKey, roomId, (r: Room) => WithRent(r, rent))
  }

  /** Under unique ids, setting the rent changes exactly that room's rent, and keeps
      rents non-negative when the new rent is. */
  lemma RentSetOnOnly(rooms: seq<Room>, roomId: Id, rent: int)
    requires UniqueKeys(rooms, RoomKey)
    ensures forall j :: 0 <= j < |rooms| ==>
      RentSetOn(rooms, roomId, rent)[j] == if rooms[j].id == roomId then rooms[j].(rent := Some(rent)) else rooms[j]
    ensures UniqueKeys(RentSetOn(rooms, roomId, rent), RoomKey)
    ensures RentsNonNegative(rooms) && rent >= 0 ==> RentsNonNegative(RentSetOn(rooms, roomId, rent))
  {
    UpdateOnly(rooms, RoomKey, roomId, (r: Room) => WithRent(r, rent));
    UpdateKeepsUnique(rooms, RoomKey, roomId, (r: Room) => WithRent(r, rent));
  }

  /** 400 without a room id or rent, 400 when the rent is not a JSON number or is negative,
      404 for an unknown room, else only that room's rent changes. */
  method Put(db: PgDatabase, roomId: Id, rent: JsonValue) returns (resp: Response)
    requires db.Valid()
    modifies db`rooms
    ensures db.Valid()
    ensures old(RentsNonNegative(db.rooms)) ==> RentsNonNegative(db.rooms)
    ensures roomId == "" || rent.Undefined? ==> resp == Response(400, MissingFields) && db.rooms == old(db.rooms)
    ensures !(roomId == "" || rent.Undefined?) && !(rent.JNum? && rent.n >= 0) ==>
      resp == Response(400, InvalidRent) && db.rooms == old(db.rooms)
    ensures roomId != "" && rent.JNum? && rent.n >= 0 && KeyAbsent(old(db.rooms), RoomKey, roomId) ==>
      resp == Response(404, RoomNotFound) && db.rooms == old(db.rooms)
    ensures roomId != "" && rent.JNum? && rent.n >= 0 && !KeyAbsent(old(db.rooms), RoomKey, roomId) ==>
      resp == Response(200, RentSet) && db.rooms == RentSetOn(old(db.rooms), roomId, rent.n)
  {
    if roomId == "" || rent.Undefined? {
      return Response(400, MissingFields);
    }
    if !rent.JNum? || rent.n < 0 {
      return Response(400, InvalidRent);
    }
    if IndexOf(db.rooms, RoomKey, roomId).None? {
      return Response(404, RoomNotFound);
    }
    RentSetOnOnly(db.rooms, roomId, rent.n);
    db.rooms := RentSetOn(db.rooms, roomId, rent.n);
    return Response(200, RentSet);
  }
}
