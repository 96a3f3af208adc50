/** `/api/pg-structure/rooms`: add a room to a floor, and list a floor's rooms. */
module RoomsRoute {
  import opened Base
  import opened Calendar
  import opened Tables
  import opened Records
  import opened Stores

  const MissingFields := "PG ID, Floor ID, Room Number, and Capacity are required."
  const MissingFloor := "Floor ID is required."

  function RoomExists(roomNumber: JsonValue): string
  {
    "Room " + JsonText(roomNumber) + " already exists on this floor."
  }

  function RoomAdded(roomNumber: JsonValue): string
  {
    "Room " + JsonText(roomNumber) + " added successfully!"
  }

  /** The query `{ roomNumber }` uses the value exactly as sent; stored room numbers are
      strings, so only a JSON string can match. */
  predicate SameNumber(stored: string, sent: JsonValue)
  {
    sent.JStr? && stored == sent.s
  }

  /** `findOne({ floorId, roomNumber })` finds something. */
  predicate Clash(rooms: seq<Room>, floorId: Id, roomNumber: JsonValue)
    ensures Clash(rooms, floorId, roomNumber) ==> roomNumber.JStr?
    ensures roomNumber.JStr? ==> (Clash(rooms, floorId, roomNumber) <==>
      exists rm :: rm in rooms && rm.floorId == floorId && rm.roomNumber == JsonText(roomNumber))
  {
    exists j :: 0 <= j < |rooms| && rooms[j].floorId == floorId && SameNumber(rooms[j].roomNumber, roomNumber)
  }

  /** Within a floor, no two rooms carry the same number. */
  predicate RoomNumbersUnique(rooms: seq<Room>)
  {
    forall i, j :: 0 <= i < j < |rooms| && rooms[i].floorId == rooms[j].floorId ==> rooms[i].roomNumber != rooms[j].roomNumber
  }

  /** The document POST inserts: the room number as text, the capacity as a number, no rent. */
  function NewRoom(id: Id, pgId: Id, floorId: Id, roomNumber: JsonValue, capacity: JsonValue, now: Date): (r: Room)
    ensures r.id == id && r.pgId == pgId && r.floorId == floorId && r.createdAt == now
    ensures r.roomNumber == JsonText(roomNumber) && r.capacity == ToNumber(capacity) && r.rent == None
  {
    Room(id, pgId, floorId, JsonText(roomNumber), ToNumber(capacity), None, now)
  }

  /** POST: 400 when the PG id, floor id or room number is falsy or the capacity is absent,
      409 when the floor already has this room number, else one room appended (201).
      A room number sent as a string keeps room numbers unique within the floor. */
  method Post(db: PgDatabase, pgId: Id, floorId: Id, roomNumber: JsonValue, capacity: JsonValue, newId: Id, now: Date)
    returns (resp: Response)
    requires db.Valid() && KeyAbsent(db.rooms, RoomKey, newId)
    modifies db`rooms
    ensures db.Valid()
    ensures old(RoomNumbersUnique(db.rooms)) && roomNumber.JStr? ==> RoomNumbersUnique(db.rooms)
    ensures pgId == "" || floorId == "" || !Truthy(roomNumber) || capacity.Undefined? ==>
      resp == Response(400, MissingFields) && db.rooms == old(db.rooms)
    ensures !(pgId == "" || floorId == "" || !Truthy(roomNumber) || capacity.Undefined?) && old(Clash(db.rooms, floorId, roomNumber)) ==>
      resp == Response(409, RoomExists(roomNumber)) && db.rooms == old(db.rooms)
    ensures !(pgId == "" || floorId == "" || !Truthy(roomNumber) || capacity.Undefined?) && !old(Clash(db.rooms, floorId, roomNumber)) ==>
      resp == Response(201, RoomAdded(roomNumber))
      && db.rooms == old(db.rooms) + [NewRoom(newId, pgId, floorId, roomNumber, capacity, now)]
  {
    if pgId == "" || floorId == "" || !Truthy(roomNumber) || capacity.Undefined? {
      return Response(400, MissingFields);
    }
    if Clash(db.rooms, floorId, roomNumber) {
      return Response(409, RoomExists(roomNumber));
    }
    var r := NewRoom(newId, pgId, floorId, roomNumber, capacity, now);
    UniqueAfterAppend(db.rooms, RoomKey, r);
    db.rooms := db.rooms + [r];
    return Response(201, RoomAdded(roomNumber));
  }

  function OnFloor(rooms: seq<Room>, floorId: Id): (r: seq<Room>)
    ensures forall rm :: rm in r <==> rm in rooms && rm.floorId == floorId
  {
    Where(rooms, (rm: Room) => rm.floorId, floorId)
  }

  /** GET: 400 without a floor id, else exactly the rooms of that floor. */
  function Get(rooms: seq<Room>, floorId: Id): (r: Reply<seq<Room>>)
    ensures r.Err? <==> floorId == ""
    ensures r.Err? ==> r.status == 400 && r.message == MissingFloor
    ensures r.Ok? ==> forall rm :: rm in r.body <==> rm in rooms && rm.floorId == floorId
  {
    if floorId == "" then Err(400, MissingFloor) else Ok(OnFloor(rooms, floorId))
  }

  /** A room number sent as the number 101 is not matched by the stored text "101", yet is
      stored as "101": uniqueness holds only for string input. */
  lemma NumericRoomNumberIsNotMatched(rooms: seq<Room>, pgId: Id, floorId: Id, now: Date, newId: Id)
    requires rooms == [Room("room-1", pgId, floorId, "101", Finite(2), None, now)]
    ensures !Clash(rooms, floorId, JNum(101))
    ensures !RoomNumbersUnique(rooms + [NewRoom(newId, pgId, floorId, JNum(101), JNum(2), now)])
  {
    assert NatText(101) == "101" by {
      assert NatText(1) == "1";
      assert NatText(10) == NatText(1) + "0";
    }
    var after := rooms + [NewRoom(newId, pgId, floorId, JNum(101), JNum(2), now)];
    assert after[0].roomNumber == after[1].roomNumber;
  }
}
